# Verified core of BitVisor

A Dafny model of the algorithms and protocols in the core of the BitVisor hypervisor whose
correctness rests on invariants that the C code keeps but does not write down. Each component is
modelled in the form it has in C: nodes, page tables, lists, bitmaps and reference counts are fields
that methods update step by step, arrays are sorted and copied in place, and every lock-held region
of a concurrent protocol is one atomic step. `dafny verify dfyconfig.toml` checks the whole project.

**B+ tree** (`BPlusModel`, `BPlusStore`, `BPlusArrays`, `BPlusHeld`, `BPlusSearch`, `BPlusReport`,
`BPlusTree`, `BPlusHeight`, `BPlusDuplicate`). Memory is a map from addresses to nodes with
fixed-size key, value and child arrays, and a map of parent links. `Valid()` says that this memory
holds exactly one balanced and ordered tree: all leaves at one depth, half to full nodes, exact
parent pointers and child indices, unused slots invalid. A tree is flattened to one sequence in
which entries and separators alternate; order is that this sequence is strictly increasing, and
splits, steals and merges are judged by what they do to it. Search, insertion and deletion refine
lookup, update and removal on a finite map, through the transient states in which a leaf is empty or
a separator is invalid. An insertion of a key that is already there shifts the leaf before it
notices. What it does is stated exactly, on what searches see of the memory: it leaves the tree
intact if and only if the key is the last one of its leaf, and it hides another key, the last one of
that leaf, if and only if at least two keys follow. A run from the empty tree shows a key being
lost. A removal that has been carried out may still be reported as an error; this happens exactly
when the last level worked on has taken a key from its right neighbour and neither merge test fits
afterwards, which is a condition on the sizes of the nodes along the search path before the call.

**Allocator** (`List`, `PageMath`, `PagePool`, `PageSizes`, `PageFit`, `PageAllocator`, `Bitmap`,
`SlabCache`, `HeapModel`, `Heap`). The buddy allocator with its two-block allocations, the slabs on
top of it and the tiny blocks inside slabs. The page invariant says that blocks tile memory, that a
page inside a block carries the order of its alignment (so a split need not write it), that lists
hold lower halves before upper halves, and that no two free buddies stay apart. Allocation succeeds
exactly when an aligned run of free pages exists. It is cut from a block of the least order that is
free, so all other free blocks, the larger ones above all, stay whole; free blocks are there defined
on the set of free pages alone. Freeing gives back exactly the pages taken, and the lists are then
the same up to order. On top, everything that is handed out is disjoint and keeps its contents.

**AML parser engine** (`SharedStacks`, `AmlModel`, `AmlRuns`, `AmlGrammar`, `AmlSpans`, `AmlParser`,
`AmlTables`). Parse states own a path, a buffer and a limit stack, all sharing cells by reference
count. The counts are exact, nothing in use is freed, and nothing is left at the end. On these
stacks the engine refines a step function on plain values, and every state it ever holds is the end
of a path of such steps from the start. For any balanced production table the three underflow errors
cannot happen on any path. What the steps recognise is said a second time as derivation trees over
the production table, in which the parts that the input did not get to stay open: a path to the end
of the input exists if and only if a tree does. So whatever is accepted has been derived, and if the
parser ends without a state, has dropped none for an equal one and the table does not look at
captured names, nothing can be derived. The packages of a path are its bracket pairs: the step that
pushes a limit and the step that takes that limit off again; a package counts as opened once its
length has been read. Those closed by an end mark end where their own length says and are nested or
disjoint. The parser also accepts when the input ends within packages, and it compares positions
with the innermost limit only, for equality. So it is not true that in every accepted parse each
package ends where its length says. It is true if and only if all declared lengths fit: each end
lies behind the bytes of its own length, within the input and within the packages around it. The if
part needs that lengths which are ignored are ignored at once, as they are in AML. Two inputs that
are accepted although a package does not fit are given, one that says it goes on behind the end of
the input and one that says it ends before its first byte.

**Scheduler** (`SchedulerModel`, `SchedulerLaws`, `Scheduler`) **and message passing** (`IpcModel`,
`IpcLaws`, `Ipc`). State machines whose runs are all interleavings of the CPUs or callers; the
methods refine the steps, and the laws are about whole runs. Threads are in one place, a thread that
asks to stop is off the CPUs and queues once its CPU has another one to run and until it is woken, a
woken thread is queued and picked before more chances have passed than there were threads before it,
an exiting one gives its block and stack back, and stacks are freed only when no CPU stands on them.
A registered name leads, through lookup, open and send by whatever tasks, to the function it was
registered for while the process lives; messages reach the process incarnation their descriptor was
made for, and each incarnation is cleaned up once. Registered names are distinct in every state of a
run that registers none of more than 15 characters.

**Smaller parts**: quicksort with a moving pivot (`QSort`), `memcpy` and `memmove` by words
(`Memory`), the lock-free extension of the 24-bit ACPI counter (`AcpiTime`), and the timer lists
(`Timers`).

Conventions: -1 stands for a null pointer or for a panic that ends the call. A boolean result such
as `badState`, `doubleFree`, `underflow` or `cleanupDue` tells whether the C code would have
panicked there; its contract says that it never does. `hide` statements only limit what the verifier
looks at.

## Model

| member | source | states |
|---|---|---|
| `BPlus.BPlusTree.constructor` | core/bplus_tree.c:107-151 | a new tree is valid and is the empty map, for each limit from 2 to 6 |
| `BPlus.BPlusTree.LeafSearch` | core/bplus_tree.c:171-192 | the recursive descent by comparisons ends in the leaf that the separators in memory lead to, for any memory whose walks stay within the arrays |
| `BPlus.BPlusTree.Search` | core/bplus_tree.c:267-290 | finds exactly what the visible slots of that leaf hold, in any searchable memory; in a valid tree that is membership in the map, with the map's value |
| `BPlus.BPlusTree.Add` | core/bplus_tree.c:465-498 | an absent key is added to the map and the tree stays valid; the invalid key changes nothing; for a key that is present, the memory still holds a tree if and only if the key ended its leaf, and later searches see the old map less exactly the keys that `Drops` names, which is at most one |
| `BPlus.BPlusTree.SplitIfFull` | core/bplus_tree.c:481-497 | a leaf with one entry too many is split and the tree is valid again with the same entries; the insertion into the parent cannot fail |
| `BPlus.BPlusTree.GrowRoot` | core/bplus_tree.c:424-463 | two halves without a parent get a new root, and the tree is valid again |
| `BPlus.BPlusTree.HangPair` | core/bplus_tree.c:424-463 | the parent holds both halves with the key between them and is over the limit by one at most |
| `BPlus.BPlusTree.SplitParent` | core/bplus_tree.c:424-463 | a parent over the limit falls into two halves with the same items around the key that goes up |
| `BPlus.BPlusTree.ParentAddChildren` | core/bplus_tree.c:424-463 | hanging two halves under their parent, splitting upwards as far as needed and growing a new root, gives a valid tree with the same entries, and never an error |
| `BPlus.BPlusTree.AddToLeaf` | core/bplus_tree.c:292-359 | a new entry lands at its place in key order; for a present key the entries behind it are shifted before the duplicate is reported |
| `BPlus.BPlusTree.AddToInner` | core/bplus_tree.c:292-359 | a separator and its two children replace one child, and all moved children's parent indices follow |
| `BPlus.BPlusTree.SplitLeaf` | core/bplus_tree.c:361-422 | the upper half of a leaf moves to a new one and its first key goes up |
| `BPlus.BPlusTree.SplitInner` | core/bplus_tree.c:361-422 | the middle key of an inner node goes up, the keys and children behind it move to a new node that becomes their parent |
| `BPlus.BPlusTree.PropagateReplacedKey` | core/bplus_tree.c:500-522 | the climb reaches the one separator that stands in front of the subtree and replaces it, and nothing else |
| `BPlus.BPlusTree.RmIdxLeaf` | core/bplus_tree.c:524-581 | the entry at an index goes and the separator in front of the leaf is its new first key, or invalid when the leaf is empty |
| `BPlus.BPlusTree.RemoveFromInner` | core/bplus_tree.c:524-581 | a separator and the child right of it go, the later children's indices follow |
| `BPlus.BPlusTree.AppendToLeaf` | core/bplus_tree.c:612-637 | an entry is appended; into an empty leaf it also sets the separator in front |
| `BPlus.BPlusTree.AppendToInner` | core/bplus_tree.c:612-637 | a separator and a child are appended and the child's links set |
| `BPlus.BPlusTree.PrependToLeaf` | core/bplus_tree.c:683-727 | an entry is put in front and the separator in front of the leaf becomes its key |
| `BPlus.BPlusTree.PrependToInner` | core/bplus_tree.c:683-727 | a separator and a child are put in front, all children's indices follow |
| `BPlus.BPlusTree.MergeLeaves` | core/bplus_tree.c:639-681 | two sibling leaves become one with the entries of both, the separator between them is gone, the right node is freed |
| `BPlus.BPlusTree.MergeEntry` | core/bplus_tree.c:639-681 | one more entry has moved over, and the separator in front is right again |
| `BPlus.BPlusTree.MoveChild` | core/bplus_tree.c:639-681 | one more child has moved over with its parent fields, and all links outside the emptied node are exact |
| `BPlus.BPlusTree.MergeInners` | core/bplus_tree.c:639-681 | two sibling inner nodes become one with the separator between their keys, and all children have the left node as parent |
| `BPlus.BPlusTree.StealFromLeft` | core/bplus_tree.c:775-787 | taking one entry or child from the left sibling gives a valid tree with the same entries |
| `BPlus.BPlusTree.StealFromRight` | core/bplus_tree.c:789-800 | the same for the right sibling, which then still is in the merge tests' reach |
| `BPlus.BPlusTree.MergeWithLeft` | core/bplus_tree.c:802-810 | a node too small merges into its left sibling without exceeding the limit; at most the parent is then too small |
| `BPlus.BPlusTree.MergeWithRight` | core/bplus_tree.c:812-821 | the same for the right sibling |
| `BPlus.BPlusTree.CollapseRoot` | core/bplus_tree.c:743-758 | an inner root without keys gives way to its only child and the height drops by one |
| `BPlus.BPlusTree.Rebalance` | core/bplus_tree.c:729-824 | a tree in which one node may be a key short, or a leaf empty with an invalid separator in front, becomes valid with the same entries; the recursion ends; the error code is returned exactly when `Reports` holds of the node sizes along the path |
| `BPlus.BPlusTree.MergeOrStop` | core/bplus_tree.c:802-824 | the merge tests, reached also after a right steal, leave a valid tree with the same entries whichever way they go; the error code is returned if and only if neither test fits and the node is not short, that is, has just taken a key from the right, or one fits and the call for the parent returns it |
| `BPlus.BPlusTree.Del` | core/bplus_tree.c:826-867 | a present key is removed from the map and its value returned, whatever code comes back; the error code comes back if and only if `Refuses` holds of the tree before the call; an absent or invalid key changes nothing; the tree is always valid |
| `BPlusReport.ReportsIff` | core/bplus_tree.c:729-824 | a removal is reported as an error exactly when there is a level that takes a key from its right neighbour and then fits with neither neighbour, all levels below it having merged |
| `BPlusReport.ReportedRemoval` | core/bplus_tree.c:789-823 | a balanced tree of limit 4 and a key whose removal is reported as an error |
| `BPlusModel.PlugItems` | core/bplus_tree.c:171-192 | the items of a tree are those left of any path, those of the subtree at its end, and those right of it |
| `BPlusModel.LocatedInto` | core/bplus_tree.c:182-191 | stepping into the child chosen by the separators keeps the key within the range of the path |
| `BPlusModel.LeafDecides` | core/bplus_tree.c:275-289 | a key is in the map if and only if it is in the leaf its path leads to, with that value |
| `BPlusModel.SplitStep` | core/bplus_tree.c:361-463 | splitting an overfull inner node in the middle keeps the item sequence and leaves both halves at least half full |
| `BPlusModel.SplitLeafStep` | core/bplus_tree.c:361-422 | splitting a leaf adds one separator to the ordered item sequence and nothing else |
| `BPlusModel.SameEntriesSameContents` | core/bplus_tree.c:500-522 | two ordered item sequences with the same entries are the same map, wherever their separators are |
| `BPlusModel.RaiseSep` | core/bplus_tree.c:500-522 | the separator in front of a subtree may be raised to the subtree's least key and order is kept |
| `BPlusModel.ShrunkLeaf` | core/bplus_tree.c:524-581 | without one entry, and with the separator repaired, the items are ordered again and are the old ones less that entry |
| `BPlusModel.LeftLeafStolen` | core/bplus_tree.c:775-787 | after a steal from the left leaf both leaves are big enough, order holds, and the entries are the same, even if the leaf was empty under an invalid separator |
| `BPlusModel.RightLeafStolen` | core/bplus_tree.c:789-800 | the same from the right leaf, with both separators repaired |
| `BPlusModel.LeftInnerStolen` | core/bplus_tree.c:775-787 | rotating a child through the parent's separator keeps the item sequence unchanged |
| `BPlusModel.RightInnerStolen` | core/bplus_tree.c:789-800 | the same in the other direction |
| `BPlusModel.LeftMerged` | core/bplus_tree.c:802-810 | merging with the left sibling keeps order, entries and balance, up to a parent one key short |
| `BPlusModel.RightMerged` | core/bplus_tree.c:812-821 | the same with the right sibling |
| `BPlusModel.EndsLeafAt` | core/bplus_tree.c:314-329 | whether a key ends its leaf can be read off the item sequence: the next item is a separator or there is none |
| `BPlusSearch.Leads` | core/bplus_tree.c:171-192 | in a valid tree the walk ends in the one leaf in whose range the key lies, at the bottom level |
| `BPlusSearch.SeenMap` | core/bplus_tree.c:267-290 | in a valid tree what the walk and the scan see in memory is the finite map, for every key |
| `BPlusSearch.DropsLast` | core/bplus_tree.c:314-329 | which key a duplicate hides can be read off the item sequence: the last one of the leaf, if at least two keys follow the duplicate |
| `BPlusSearch.SameLeaf` | core/bplus_tree.c:171-192 | two keys without a separator between them are looked for in the same leaf |
| `BPlusSearch.DupSeen` | core/bplus_tree.c:314-332 | after a duplicate a search for any key finds what it found before, unless the key is the one that is hidden |
| `BPlusDuplicate.Lose` | core/bplus_tree.c:465-498 | from the empty tree with limit 3, after adding 1, 2, 3 and 1 again, a search for 3 fails that succeeded before |
| `BPlusHeight.HeightBounds` | core/bplus_tree.c:171-192 | a valid tree of height h with limit n holds at most n*(n+1)^h keys and, when h > 0, at least 2*(n/2)*(n/2+1)^(h-1), so the descent is logarithmic in the number of keys |
| `PageAllocator.Allocator.constructor` | core/mm.c:340-371 | after freeing the unreserved pages one by one the invariant holds and the free pages are exactly those |
| `PageAllocator.Allocator.FreeSecondHalf` | core/mm.c:158-172 | a split makes the second half a free upper block of the right order although its order is never written, and nothing else in use changes |
| `PageAllocator.Allocator.AllocSub` | core/mm.c:174-186 | a block of the order comes off, cut from a free block of the least order that is free, a lower half if there is one; failure means that all lists from that order on are empty |
| `PageAllocator.Allocator.Alloc` | core/mm.c:188-212 | succeeds if and only if an aligned run of 2^n free pages exists, and takes exactly such a run, at the start of a free block of the least order that is free; every other free block stays as it is |
| `PageAllocator.Allocator.ScanPair` | core/mm.c:226-236 | the scan that stops at the first upper half finds a lower block with a large enough free buddy if and only if the list has one |
| `PageAllocator.Allocator.AllocCont` | core/mm.c:214-255 | succeeds if and only if 2^n + 2^m free pages in a row exist from an order n+1 boundary on, and takes exactly these: behind a free block of order n if there is such a place, and else from a free block of the least order above n that is free; every other free block stays as it is |
| `PageFit.BlockIff` | core/mm.c:150-186 | the page table has a free block exactly where the free pages have a maximal aligned run |
| `PageFit.FirstBest` | core/mm.c:174-186 | the first block of the first list that is not empty is of the least order that is free, and a lower half if any of that order is |
| `PageFit.FitKeeps` | core/mm.c:174-186 | taking pages from the best fit leaves every other free block as it is |
| `PageFit.NoSplit` | core/mm.c:174-186 | if there is a free block of the order asked for, no block is split: the free blocks afterwards are those before but the one taken |
| `PageFit.PairIff` | core/mm.c:226-234 | the test for a pair holds exactly of the free blocks that have room for the second one behind them |
| `PageFit.PairKeeps` | core/mm.c:226-249 | taking a pair leaves every free block but its two as it is |
| `PageAllocator.Allocator.FreeSub` | core/mm.c:257-309 | gives back exactly the pages of the allocation, both blocks of a pair, all disjoint from what was free; each wrong type gives its own error and changes nothing; pairs stay whole if and only if the block was not the second one of a pair, which is freed without an error |
| `PageAllocator.Allocator.MergeOnce` | core/mm.c:289-307 | two free buddies become one free block of the next order, and the free pages stay the same |
| `PageAllocator.Allocator.NumAvailable` | core/mm.c:322-338 | the sum over the lists is the number of free pages |
| `PageAllocator.Allocator.AllocPages` | core/mm.c:423-444 | the region is in one piece, of the least size there is for n pages; fails exactly when no size or no such run exists |
| `PageSizes.GetAllocPagesSize` | core/mm.c:399-420 | the least size of the form 2^i or 2^i + 2^j that covers n pages, at most a third more than asked, or -1 exactly when n is beyond all sizes |
| `PageSizes.OneShape` | core/mm.c:399-420 | no size has two such forms |
| `PagePool.HalfReady` | core/mm.c:158-172 | the page in the middle of a block already carries the order that a split is to give it |
| `PagePool.SplitKeeps` | core/mm.c:158-172 | a split keeps the whole page invariant and frees exactly the upper half |
| `PagePool.PopKeeps` | core/mm.c:174-186 | taking a block off its list keeps the invariant and removes exactly its pages |
| `PagePool.ReleaseKeeps` | core/mm.c:284-288 | putting a block on its list adds exactly its pages, which were not free before |
| `PagePool.MergeKeeps` | core/mm.c:289-307 | a merge keeps the invariant and the set of free pages, and moves the only possible unmerged pair up |
| `PagePool.RunInBlock` | core/mm.c:257-309 | an aligned run of free pages lies in one free block of at least that order |
| `PagePool.FreeBlocksUnique` | core/mm.c:257-309 | the set of free blocks is determined by the set of free pages |
| `PageAllocator.Restored` | core/mm.c:188-309 | two states with the same free pages have the same blocks on every list |
| `PageAllocator.Allocator.AllocFree` | core/mm.c:188-309 | an allocation followed by its free leaves every list with the blocks it had, and all blocks in use alone |
| `PageAllocator.Allocator.AllocContFree` | core/mm.c:214-309 | the same for a two-block allocation |
| `PageAllocator.NoPairBeyond` | core/mm.c:226-235 | behind the first upper half of a list there are no lower halves, so stopping there misses nothing |
| `PageAllocator.NoPair` | core/mm.c:214-255 | when the larger lists are empty and the scan finds nothing, no such stretch of free pages exists at all |
| `PageAllocator.NoRun` | core/mm.c:174-186 | when all lists from an order on are empty, no aligned run of that many free pages exists |
| `PageAllocator.CountAll` | core/mm.c:322-338 | list lengths weighted by block sizes add up to the number of free pages |
| `Bitmap.FindsClear` | core/mm.c:462-495 | the bit trick yields the lowest clear bit of a map that is not full |
| `Bitmap.BitToIndex` | core/mm.c:462-495 | the loop yields the index of the lowest set bit, -1 exactly for no bit |
| `SlabCache.ChangeOk` | core/mm.c:462-534 | whatever happens to one slab, listing it exactly when it is partly used keeps all lists right |
| `Heap.ByteAllocator.SmallAlloc` | core/mm.c:462-495 | a fresh slot of the class and nothing else changes; a slab with a free slot is used before a page is taken; fails if and only if there is neither |
| `Heap.ByteAllocator.SmallFree` | core/mm.c:507-534 | exactly that slot goes, an empty slab returns its page, a full one is listed again; no double free is reported |
| `Heap.ByteAllocator.TinyAlloc` | core/mm.c:545-578 | a fresh tiny slot off the header; fails if and only if there is no tiny slot, no slab slot to make a container of and no page; only headers of containers are written |
| `Heap.ByteAllocator.TinyFree` | core/mm.c:590-618 | exactly that slot goes, and the container with its last slot |
| `Heap.ByteAllocator.StoreHeaders` | core/mm.c:545-618 | the stores to a container and to its neighbours on the list all go to headers of containers |
| `Heap.ByteAllocator.Alloc` | core/mm.c:621-636 | a new range of the least size offered for the length; everything handed out keeps its place, size and bytes; fails if and only if there is no slot of the size and no page for one, or no run of pages of the size |
| `Heap.ByteAllocator.PagesAlloc` | core/mm.c:621-636 | the page case fails if and only if no size or no run of it exists |
| `Heap.ByteAllocator.Free` | core/mm.c:656-673 | the address alone leads back to the layer and slot it came from; exactly it goes, all else keeps its place, size and bytes; no panic is reached |
| `Heap.ByteAllocator.PageFree` | core/mm.c:311-319 | freeing what is handed out never meets a wrong page type |
| `Heap.ByteAllocator.GetAllocLen` | core/mm.c:675-696 | the size of the range, from its address alone |
| `Heap.ByteAllocator.GetActualAllocateSize` | core/mm.c:698-717 | the least size offered for a length |
| `Heap.ByteAllocator.MoveBlock` | core/mm.c:738-757 | the bytes arrive in a new range, the old one goes, all other ranges keep place and bytes |
| `Heap.ByteAllocator.Realloc` | core/mm.c:721-757 | the block that comes back has the least size offered for the new length; it stays in place, with nothing changed, if and only if it had that size; the first min(old, new) bytes are kept, all else is untouched; the shrink assertion holds; it fails if and only if a new block is needed and there is none, and then the block is as it was |
| `Heap.GetSmallAllocsize` | core/mm.c:453-460 | the least slab class that covers a length, -1 exactly when none does |
| `Heap.GetTinyAllocsize` | core/mm.c:536-543 | the least tiny class that covers a length, -1 exactly when none does |
| `Heap.Route` | core/mm.c:656-673 | page type and offset remainder tell the three layers apart for every live address |
| `Heap.Kept` | core/mm.c:545-618 | writing container headers leaves the bytes of every live range alone |
| `HeapModel.RangesApart` | core/mm.c:462-673 | any two live byte ranges, of whatever layers, are disjoint |
| `HeapModel.HeadersClear` | core/mm.c:545-618 | no live range touches the header of a tiny container |
| `HeapModel.NewTiny` | core/mm.c:565-571 | turning a slab slot into a container swaps that slot for its first tiny slot and affects nothing else |
| `HeapModel.DropSlab` | core/mm.c:523-533 | giving a slab's last slot and its page back affects nothing else |
| `SharedStacks.Stacks.Push` | core/acpi_dsdt.c:198-234 | one stack grows, all stacks that share its cells stay as they are, counts stay exact |
| `SharedStacks.Stacks.Clone` | core/acpi_dsdt.c:317-340 | a copy that shares all cells holds the same, counts stay exact |
| `SharedStacks.Stacks.Pop` | core/acpi_dsdt.c:236-255 | one stack loses its top, the others nothing, shared or not; the cell goes exactly with its last pointer |
| `SharedStacks.Stacks.Drop` | core/acpi_dsdt.c:257-294 | one stack goes and the others stay; the loop frees just the cells nobody else points to |
| `SharedStacks.AllGone` | core/acpi_dsdt.c:257-294 | with exact counts and no stacks there are no cells |
| `SharedStacks.FreeCounted` | core/acpi_dsdt.c:257-294 | a cell whose count has dropped to zero has no other pointer to it, and freeing it keeps all counts exact |
| `AmlParser.Parser.constructor` | core/acpi_dsdt.c:2281-2296 | one state with the start symbol, at the first byte, its path the empty one |
| `AmlParser.Parser.GetBuf` | core/acpi_dsdt.c:389-404 | work on this byte comes first, then all states that have read it move on together; none is lost |
| `AmlParser.Parser.AddBuf` | core/acpi_dsdt.c:312-354 | a copy of the state that derives the alternative first, with a path mark if needed, and all other states unchanged |
| `AmlParser.Parser.CopyStacks` | core/acpi_dsdt.c:312-354 | the three stacks of the copy share the cells of the original below what is put on top, and no other stack changes |
| `AmlParser.Parser.ReadByte` | core/acpi_dsdt.c:2233-2250 | a state reads the byte unless its innermost package ends here or it is pruned |
| `AmlParser.Parser.WorkTerm` | core/acpi_dsdt.c:736-2147 | each alternative of a production becomes a state, none is lost or added, and the original goes; a byte that the table refuses ends the state (`AmlGrammar.Accepted`) |
| `AmlParser.Parser.Fork` | core/acpi_dsdt.c:736-2147 | after all alternatives have been added the states are exactly the derived ones in place of the original |
| `AmlParser.Parser.WorkLength` | core/acpi_dsdt.c:2167-2180 | the length so far is that of the bytes read, per section 20.2.4 of the ACPI Specification |
| `AmlParser.Parser.WorkPkgLength` | core/acpi_dsdt.c:2148-2166 | the state is replaced by one that reads as many bytes as the lead byte announces |
| `AmlParser.Parser.WorkPop` | core/acpi_dsdt.c:2185-2195 | neither package underflow can happen; an end mark goes on only at its limit, and the state then has that limit off its stack |
| `AmlParser.Parser.WorkOk` | core/acpi_dsdt.c:2220-2230 | the path underflow cannot happen |
| `AmlParser.Parser.Work` | core/acpi_dsdt.c:736-2254 | one turn on shared, counted cells is the step function on plain values for this state and leaves every other state alone; the path of whatever comes of it goes on by this step; no underflow error is reached |
| `AmlParser.Parser.Parse` | core/acpi_dsdt.c:686-2255 | over any number of turns from the start no underflow is reported; whatever is accepted can be derived from the table, and if the parser ends without a state, has pruned none and the table does not look at names, nothing can be derived; an accepted state is the end of a path to the end of the input on which all closed packages have their declared length and nest; every package ends where its length says only if all declared lengths fit, and for tables that ignore lengths at once if and only if they fit; no package is left open if and only if no limit is left, which is if and only if the buffer is balanced |
| `AmlParser.StepCovered` | core/acpi_dsdt.c:736-2254 | a turn that does not prune leaves every path to the end of the input with a state on it |
| `AmlParser.Parser.FreeRest` | core/acpi_dsdt.c:706-721 | only the accepted state remains, unchanged |
| `AmlParser.Parser.FreeLast` | core/acpi_dsdt.c:677-684 | when the last state is freed no cell of any stack remains |
| `AmlRuns.StepOk` | core/acpi_dsdt.c:736-2254 | every step leads from a state in order to states in order, with its packages recorded |
| `AmlRuns.PathOk` | core/acpi_dsdt.c:736-2254 | every state of every path from the start is in order |
| `AmlRuns.NoUnderflow` | core/acpi_dsdt.c:2185-2222 | in such a state what is to be taken off the path or the limit stack is there |
| `AmlGrammar.Accepted` | core/acpi_dsdt.c:704-2254 | for every path to the end of the input there is a derivation tree: each byte was read by a term that the table shifts there, or as part of a package length, and every other term was expanded by one of its alternatives or skipped by the table |
| `AmlGrammar.Followed` | core/acpi_dsdt.c:704-2254 | for every derivation tree there is a path of steps that reads the same input |
| `AmlGrammar.ReachableIff` | core/acpi_dsdt.c:704-2254 | the end of the input can be reached if and only if the input can be derived |
| `AmlGrammar.LengthWalk` | core/acpi_dsdt.c:2148-2184 | the steps of a package length read as many bytes as its lead byte says and push its end, or the input ends in it |
| `AmlRuns.ClosedIs` | core/acpi_dsdt.c:2181-2195 | the packages recorded as closed are exactly the bracket pairs of the path that end marks close |
| `AmlRuns.PackageLength` | core/acpi_dsdt.c:2148-2195 | every package closed on a path ends at its start plus the length its own bytes declare, per section 20.2.4 of the ACPI Specification |
| `AmlRuns.PackagesNest` | core/acpi_dsdt.c:2181-2195 | any two packages closed on a path are disjoint or one lies within the other |
| `AmlRuns.AllClosedIff` | core/acpi_dsdt.c:704-721 | every package opened on a path has been closed or ignored if and only if the rest of the buffer closes as many as it opens, and if and only if no limit is left; for where packages end, `FinishedIff` has the condition on declared lengths |
| `AmlSpans.FinishedIff` | core/acpi_dsdt.c:704-2230 | on a path to the end of the input, packages that all end where their lengths say have lengths that fit behind their own bytes, in the input and in the packages around; if ignored lengths are ignored at once, packages whose lengths fit all end where they say |
| `AmlSpans.FinishedFits` | core/acpi_dsdt.c:704-2195 | the first half, for any table |
| `AmlSpans.FitFinishes` | core/acpi_dsdt.c:704-2195 | the second half |
| `AmlSpans.InBounds` | core/acpi_dsdt.c:2233-2250 | if all lengths fit, no byte is read beyond the end of a package that is open |
| `AmlSpans.TightPrompt` | core/acpi_dsdt.c:1046-1054 | for a table that has each ignore right behind its length, ignored lengths are ignored at once on every path |
| `AmlSpans.ParseSpans` | core/acpi_dsdt.c:704-721 | for such tables the condition is exact in every accepted parse |
| `AmlSpans.LeftOver` | core/acpi_dsdt.c:704-721 | a limit left over that is not the end of the input means a package that has not ended where it says |
| `AmlTables.AmlTableTight` | core/acpi_dsdt.c:740-2219 | a table of the shapes of the AML productions is such a table |
| `AmlTables.Accept` | core/acpi_dsdt.c:704-721 | every two-byte input whose one package does not end behind its first or second byte is accepted with that limit left over, and the package neither fits nor ends where it says |
| `AmlTables.Truncated` | core/acpi_dsdt.c:704-721 | an accepted input whose package says it goes on behind the end of the input |
| `AmlTables.Overrun` | core/acpi_dsdt.c:2181-2250 | an accepted input whose package says it ends before its first byte |
| `AmlTables.PackageBalanced` | core/acpi_dsdt.c:2103-2113 | a production that opens a package among plain terms and closes or ignores it is balanced |
| `AmlTables.ShapedTableOk` | core/acpi_dsdt.c:740-2219 | a table of such productions and of plain terms meets what the engine relies on |
| `AmlModel.Expanded` | core/acpi_dsdt.c:312-354 | replacing a term by a balanced alternative keeps limits sufficient and path marks paired |
| `AmlModel.ExpandedLength` | core/acpi_dsdt.c:2148-2166 | the lead byte's top bits choose a group that reads the whole length and pushes one limit |
| `AmlModel.Pushed` | core/acpi_dsdt.c:2181-2184 | the pushed limit is the lead byte's position plus the decoded length |
| `AmlModel.Ended` | core/acpi_dsdt.c:2189-2195 | at an end mark a limit is on the stack, and a package closed at it keeps spans nested |
| `SchedulerModel.StepInv` | core/thread.c:144-308 | every event keeps the invariant: each thread in exactly one place, pinned threads on their CPU, stacks distinct |
| `SchedulerModel.RunInv` | core/thread.c:354-382 | so does every run of events from the start, for any number of threads and CPUs |
| `SchedulerModel.WakeKept` | core/thread.c:245-284 | from a wakeup on, over any run in which it does not stop or exit itself, a thread stays running or queued or about to be queued: no wakeup is lost |
| `SchedulerModel.WakeWakes` | core/thread.c:245-264 | a wakeup wakes a thread that is stopped or about to stop |
| `SchedulerModel.QueueFalls` | core/thread.c:162-182 | a queued thread is picked or keeps at most its index, strictly less after each schedule on a CPU it may run on |
| `SchedulerModel.NoStarvation` | core/thread.c:155-195 | a thread at index i is passed over by at most i schedules on CPUs it may run on, in any run |
| `SchedulerModel.FreedStack` | core/thread.c:155-159 | a stack is freed only by a later schedule, when no CPU is on it before or after |
| `SchedulerModel.PendingStack` | core/thread.c:155-179 | a pending stack is replaced only after it has been freed, and only by that of an exited thread just switched away from |
| `SchedulerLaws.SchedulePicks` | core/thread.c:155-195 | a schedule takes the thread that has waited longest of those that may run on the CPU; the others keep their order, and the thread that gives way is queued last, stops, or is free with its stack to be freed next, by its state |
| `SchedulerLaws.ScheduleIdle` | core/thread.c:155-168 | a schedule with nothing to switch to only frees the pending stack |
| `SchedulerLaws.StopStops` | core/thread.c:145-195 | after a thread has asked to stop, over any run in which it is not woken and does not exit, it stays current until a schedule of its CPU has another thread to run, and from then on is stopped, on no CPU and in no queue |
| `SchedulerLaws.RestRun` | core/thread.c:144-308 | a stopped thread stays stopped, on no CPU and in no queue, over every run without a wakeup for it |
| `SchedulerLaws.ExitExits` | core/thread.c:171-179 | after a thread has exited it stays on its CPU until that has another one to run; then its block is free, no CPU or queue has it, and its stack is the next to be freed |
| `SchedulerLaws.WakeQueues` | core/thread.c:254-258 | the second half of a wakeup puts the thread behind all that are queued, which keep their places |
| `SchedulerLaws.WakeRuns` | core/thread.c:245-264 | a stopped thread that is woken can be queued by its waker after any run of events, and is then picked before more schedules have passed on CPUs it may run on than there were threads in the queue |
| `SchedulerLaws.NewRuns` | core/thread.c:205-219 | a new thread may run on every CPU, or on CPU 0 only while that is asked for, and the same bound holds for it |
| `Scheduler.Threads.Schedule` | core/thread.c:144-195 | refines the step; the thread that has waited longest of those that may run here is taken, the others keep their order, the old one is queued last, stopped or freed by its state; without such a thread nothing but the pending stack changes; the bad state panic is not reached |
| `Scheduler.Threads.NewThread` | core/thread.c:205-219 | refines the step: a free thread, now on the given stack, is queued |
| `Scheduler.Threads.WillStop` | core/thread.c:266-284 | refines the step; the current thread is marked and stays current; the bad state panic is not reached |
| `Scheduler.Threads.Exit` | core/thread.c:286-308 | refines the step; the bad state panic is not reached |
| `Scheduler.Threads.WakeState` | core/thread.c:245-264 | refines the first half of a wakeup; the caller owes the queueing exactly if the thread was stopped |
| `Scheduler.Threads.WakeQueue` | core/thread.c:254-258 | refines the second half, any number of events later: the thread is queued last and is owed no longer |
| `Scheduler.Threads.InitCpu` | core/thread.c:370-382 | refines the step: a CPU starts on a thread of its own that is pinned to it |
| `Scheduler.Threads.constructor` | core/thread.c:354-368 | all threads start on the free list and the invariant holds |
| `IpcModel.StepInv` | core/process.c:392-872 | every event keeps the invariant: the kernel in generation 1 for good, no generation below 1, call counts exact, exiting processes have calls in them, names and running calls refer to live incarnations, a matching generation means the same incarnation |
| `IpcModel.RunInv` | core/process.c:340-357 | so does every interleaving from the start |
| `IpcModel.Delivered` | core/process.c:539-593 | a call that gets in enters the incarnation its descriptor was made for, even after a race with exit and reuse of the process id |
| `IpcModel.CallStep` | core/process.c:522-608 | while a call is running no event changes the incarnation it runs in |
| `IpcModel.CleanedOnce` | core/process.c:480-608 | an incarnation is cleaned up only by the last call leaving it after its exit, and never again |
| `IpcModel.ExitCleans` | core/process.c:595-608 | that call does clean it up, and no registered name of it remains |
| `IpcModel.RunUnique` | core/msg.c:50-102 | along any run that registers no name of more than 15 characters, names stay unique in every state |
| `IpcModel.RegisterUnique` | core/msg.c:80-102 | a registration keeps names unique if and only if the name is at most 15 characters long or its first 15 are not yet registered |
| `IpcModel.DuplicateNames` | core/msg.c:80-102 | two names of 16 characters that are registered as the same name, in a reachable state |
| `IpcModel.RegisteredFound` | core/msg.c:50-102 | a name that has just been registered is found if and only if it has at most 15 characters |
| `IpcModel.NotLoadedDead` | core/process.c:447-461 | the reference that is handed out when a program cannot be loaded has a generation that is not the kernel's, then and after any further run, so nothing ever answers it |
| `IpcModel.NotLoadedDamage` | core/process.c:447-459 | such a failure takes the function of slot 0 from the kernel: of the kernel's references exactly those to other slots are answered as before, and the next function the kernel registers goes to slot 0 |
| `IpcLaws.NameReaches` | core/process.c:523-716 | a name of at most 15 characters that a process has registered, looked up and opened by any task for any process, and sent through by any task of that process, reaches the slot it was registered for in the incarnation that registered it, whatever all others do in between, as long as neither incarnation is cleaned up and the slot is not closed; for slot 0 of the kernel no load may fail in between |
| `IpcLaws.Found` | core/msg.c:50-78 | a lookup gives the reference of the first entry with the name asked for |
| `IpcLaws.Registered` | core/process.c:651-676 | a registration gets a slot that had no function and leaves the others alone; the name is the first of its kind if it is not cut |
| `IpcLaws.KnownRun` | core/msg.c:80-137 | an entry stays the one that a lookup finds, and its function stays, over every run in which its incarnation is not cleaned up |
| `IpcLaws.HoldsRun` | core/process.c:392-415 | a reference stays in its slot over every run in which the slot is not closed and its process not cleaned up |
| `IpcLaws.NewServed` | core/process.c:417-462 | a process that has been loaded is an incarnation that has not been before, with no calls, and its creator has a reference that is answered |
| `IpcLaws.ExitEnds` | core/process.c:595-608 | after a process has exited, in every later state in which no call to it is in progress, its incarnation has been cleaned up |
| `Ipc.Processes.constructor` | core/process.c:340-357 | the kernel process alone, and the invariant holds |
| `Ipc.Processes.NewProcess` | core/process.c:417-462 | refines the step; the least free process id is taken; fails exactly when all are taken or there is no address space, without a change; a program that cannot be loaded leaves no live process |
| `Ipc.Processes.FindName` | core/msg.c:62-78 | refines the step; found exactly if the name is registered, and then the reference read is that of an entry of this name |
| `Ipc.Processes.OpenDesc` | core/process.c:392-415 | refines the step; the first empty slot takes the reference looked up before and nothing else changes; fails exactly without an empty slot |
| `Ipc.Processes.Register` | core/process.c:651-676 | refines the step; the first slot without a function is taken, and what is registered is the shortened name with the current generation; fails exactly without such a slot or for a name that is registered, and then nothing changes |
| `Ipc.Processes.RegisterUnnamed` | core/process.c:651-676 | refines the step: the first slot without a function has one, and no name is registered; fails exactly without such a slot |
| `Ipc.Processes.SendDesc` | core/process.c:819-872 | refines the step: a reference goes into the first empty receiving slot of a live process of the generation of the descriptor it is sent through; fails exactly without such a process or slot |
| `Ipc.Processes.FetchDesc` | core/process.c:775-792 | refines the step: the task has read just what the slot holds |
| `Ipc.Processes.Enter` | core/process.c:539-593 | refines the step; the call gets in exactly if the process is valid, of the generation of the descriptor, has a function there and its buffers and stack can be mapped; when mapping fails there never is a cleanup due |
| `Ipc.Processes.Leave` | core/process.c:592-608 | refines the step: one call less; the process goes, and its names with it, exactly if it was the last call of an exiting process |
| `Ipc.Processes.Cleanup` | core/process.c:480-493 | invalidates the process, raises its generation and drops its names |
| `Ipc.Processes.UnregisterAll` | core/msg.c:122-137 | exactly the names of the process go, the others keep their order, although the loop restarts its search after each |
| `Ipc.Processes.CloseDesc` | core/process.c:744-757 | refines the step: this slot is empty and all other slots are as before |
| `Ipc.Processes.SetExit` | core/process.c:464-475 | refines the step: the process that the task is in is marked as exiting |
| `QSort.Sort` | core/qsort.c:50-88 | for any total preorder the part is a sorted permutation of itself and the rest untouched; both recursive parts are smaller |
| `QSort.Partition` | core/qsort.c:65-85 | a permutation cut in two non-empty parts around some value, although the pivot moves |
| `QSort.PartTurn` | core/qsort.c:68-83 | one turn keeps the part permuted and split around the pivot, and ends the loop only with a cut |
| `QSort.SwapPair` | core/qsort.c:77-82 | after the swap both elements are on their side and the pivot is where `m` says |
| `QSort.ScanDown` | core/qsort.c:69-70 | the downward scan stops inside the part, at the pivot or at an element not above it |
| `QSort.ScanUp` | core/qsort.c:71-72 | the upward scan stops at an element not below the pivot or where the downward one stopped |
| `Memory.Memmove` | core/string.c:198-253 | equals a simultaneous copy of all bytes, for every overlap and alignment, and touches nothing else; section 7.24.2.2 of ISO C11 |
| `Memory.Memcpy` | core/string.c:95-142 | the same for ranges that are disjoint or move down, which is what `memmove` needs |
| `Memory.MovedAt` | core/string.c:198-253 | what that copy means byte by byte |
| `Memory.Forward` | core/string.c:95-142 | storing the next word of an upward copy extends the simultaneous copy although source and destination overlap |
| `Memory.Backward` | core/string.c:217-250 | the same for a downward copy |
| `AcpiTime.ExtendedExact` | core/time.c:66-71 | extending the stored value by 24 raw bits yields the true tick count if and only if fewer than 2^24 ticks have gone by, and never runs ahead or backwards |
| `AcpiTime.ScaledMonotone` | core/time.c:74-76 | scaling to microseconds is monotone |
| `AcpiTime.ScaledIs` | core/time.c:74-76 | the result is the number of whole microseconds in that many ticks of 3579545 per second |
| `AcpiTime.Clock.Compute` | core/time.c:64-71 | what a CPU computes is never ahead of the true tick count at its raw read nor behind the value it loaded, and is that count if and only if fewer than 2^24 ticks separate the two |
| `AcpiTime.Clock.Publish` | core/time.c:72-77 | the stored value is the one computed if it was not changed meanwhile, and never runs ahead or backwards whoever wins the exchange and however late; the result is the number of whole microseconds in the true tick count if the reading was extended in time |
| `AcpiTime.Clock.Monotone` | core/time.c:56-78 | of any two calls by any CPUs the one with the later raw read has the greater result, if its reading was extended in time |
| `Timers.Queue.constructor` | core/timer.c:157-170 | all timers are free |
| `Timers.Queue.New` | core/timer.c:59-74 | a free timer moves to the unarmed list, disabled; without one nothing changes but that the lock stays held |
| `Timers.Queue.Set` | core/timer.c:76-104 | the timer is armed with its deadline and the armed list is sorted again, other timers unaffected |
| `Timers.Queue.Free` | core/timer.c:106-120 | the timer leaves whichever list it was in for the free list |
| `Timers.Queue.Fire` | core/timer.c:122-155 | a timer fires only when due and is the earliest of all armed ones; none fires only if none is due |
| `Timers.InsertInOrder` | core/timer.c:93-97 | inserting before the first later deadline keeps the list sorted |
| `Timers.DelInOrder` | core/timer.c:76-120 | removing any timer keeps it sorted |

## Left out

- B+ tree iterators, neighbour search and the leaf chain: the split does not carry the old next leaf forward, so they have no completeness property to prove; `bplus_tree_free` frees only the root.
- Node addresses of the B+ tree are fresh numbers; allocation of a node never fails.
- `mempool_*`, address spaces (`mm_process_*`), `mapmem*` and page-table code.
- Locks of the allocator: each call is one atomic step. Its sizes are unbounded integers, so requests whose byte count overflows are out, and page numbers stand for addresses from an aligned base.
- The bytes of the heap (`mem`) are specification state; slots, bitmaps, lists and page structures are real state.
- Heap.ByteAllocator.Free: the pointers it is given are ones that were handed out, as the source demands of its callers; what a wild pointer does is not modelled at this level (`FreeSub` has the error cases of pages, and the second block of a pair).
- The individual AML productions: the table is a parameter that may depend on path, byte and captured name, and has to be balanced. Name capture, S-state extraction and patching of `_DIS` and other methods are not modelled.
- AmlParser.Parser.Work: whether a state is pruned as a duplicate is a free input, and so is whether its captured name is that of a system state, so that an input is refused is only explained for parses that prune nothing and tables that do not look at names (pruning compares buffers and limits, not paths, so it can drop a state that would have gone on differently).
- AmlParser.Parser.Parse: left-recursive tables need not terminate, so the number of turns is bounded by a parameter, any number at all. The search for a name in the middle of a parse is left out.
- AmlSpans.ParseSpans: for a table that keeps a limit on the stack for a while and then ignores it, which no AML production does, only one half is stated: bytes can then be read past the end of an outer package while the limit to be ignored is innermost.
- The `THREAD_1CPU` variant and the architecture's context switch, which is one atomic change of the current thread. Nobody wakes a thread that has exited.
- What is loaded into a process, message functions themselves, `_msgsetfunc`, `_msgunregister`, `sys_setlimit` and buffer mapping; of loading and mapping only success or failure is an input.
- IpcLaws.NameReaches: `_msgunregister` and `_msgsetfunc`, by which a process takes a name or a function back itself, are not among the events.
- Generations and incarnations are unbounded integers.
- The comparison function of `qsort` is a pure function and elements are values, not bytes.
- Memory.Memcpy: for ranges where the destination lies above the source and overlaps it the C standard promises nothing, and neither does this contract.
- 64-bit overflow of the ACPI tick count is not modelled.
- Overflow of timer deadlines. After `timer_new` has failed the lock is held for good, so the other operations are modelled for a lock that is not held.
