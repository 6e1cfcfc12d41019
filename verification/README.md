# The memory manager of the Lisp runtime, verified

This project models, in Dafny, the memory manager of the Lisp runtime in `src/lisp`, with one arithmetic kernel, one
transcoder and one signal protocol beside it, and proves that they do what they are for. `dafny verify dfyconfig.toml` checks
all of it.

## What is modelled

- **The stop-and-copy collector** (`gc.c`): `CheneyHeap`, `CheneyGraph`, `CheneyFields`, `CheneyCollector`. A class that works
  in place on an array of words: forwarding, `trans_list`, the scan of new space, weak pointers, the flip. A collection leaves
  a heap that mirrors the objects reached, and can be collected again; `CheneyFields` says so word by word, by the types of
  the objects.
- **The page table of the generational collector** (`gencgc.c`): `PageTable`, `PageObjects`, `PageBlocks`, `NewAreas`,
  `PageHeap`, `PageGc`, `PageRuns`. The class `Heap` has the page table, the two open regions, the counters, the recorded
  areas and the memory; its invariant says that pages chain, objects are whole and apart, bytes are counted and free words
  are zero where the code relies on it. Sizes are counted in 32-bit words; the table ends with one free page that loops may look
  at.
- **Scavenging on that page table**: `PageGrowth`, `Newspace`, `WordAccount`, `NewspaceMirror`, `NewspaceTrace`,
  `NewspaceScan`. The scan of new space is complete and ends although areas are left out, merged or lost, words change only to
  follow what they refer to, nothing is moved that cannot be reached, and every copy is paid for by its original.
- **The write barrier and whole collections**: `WriteBarrier`, `Resting`, `ConservativeRoots`, `KeptObjects`, `LiveObjects`,
  `CollectionStart`, `GenerationalCollection` (in `Collection.dfy`), `GenerationLoop`. Between collections the invariant
  `Idle` holds, in which a write-protected page refers to nothing younger. `GenerationLoop.Generations.CollectGarbage` is a
  whole garbage collection of the heap, generation after generation, from `Idle` to `Idle`, with roots that are scavenged and
  a control stack whose words may or may not be references; what these refer to stays where it is. Of the generations
  collected it leaves only what can be reached from the roots, the older generations, and the pages pinned last.
- **Whole runs**: `MutatorRuns`. A program that allocates, loads, stores, shrinks objects and collects garbage on the heap
  computes what it computes on a machine whose objects never move and are never freed (`MutatorRuns.Run`), whether its
  registers are scavenged or only found on the control stack; every step keeps `Idle`. The laws of that machine are
  `MutatorRuns.StoreLoad`, `PokePeek`, `NewZero`, `ShrinkKeeps` and `ConstantKept`.
- **EQ hash tables**: `LinkedLists`, `HashChains`, `HashTables`. Collision chains, free list and needing-rehash list stay a
  partition; the weak tables' fixpoint is reached, and is the least.
- **The region allocator of the conservative collector** (`cgc.c`): `RegionIndex`, `RegionLists`, `RegionHeaps` (in
  `RegionHeap.dfy`), `RegionCollection`. The saturating offset index agrees with the tiling, lists linked through the address
  of next are exact, bytes are counted, what is given out is apart, a collection keeps the regions that pointers lead into
  and frees the others, and compaction leaves no adjacent free regions, in every run of allocations and collections
  (`RegionCollection.Run`).
- **Payne-Hanek argument reduction** (`k_rem_pio2.c`, `e_rem_pio2.c`): `RemPio2`, with `PowersOfTwo`. Doubles that are exact
  are integers or reals; that they are below 2^53 is proved.
- **UTF-16 to UTF-8** (`interr.c`): `Utf16Output`, against decoders after RFC 3629 and RFC 2781.
- **Deferred signals and dynamic binding** (`interrupt.c`, `dynbind.c`): `DeferredSignals`, a state machine over its steps,
  and `DynamicBinding`.

## What the proofs show about the code

- The assertions of `gencgc.c` in the parts modelled hold: among others those on the offsets and sizes of pages when a page is
  pinned or a large object promoted, on the byte counters, on the empty region at the end of `collect_garbage`, and the
  `gc_assert(0)` at the end of `gc_alloc_region`. `scavenge` ends with exactly no words left over, because no unboxed object
  runs over an end of a block of pages (`NewspaceScan.BlockUncut`).
- The mutator allocates unboxed objects on boxed pages too. Without a control stack that pins them a collection moves those that
  are left to unboxed pages; pinned ones stay, and `scavenge` has to step over them in later collections.
- `scavenge_newspace_generation_one_scan` tests whether a block of the new space is fully write protected; it never is, as the
  test is made only for blocks that begin with a page that is not.
- `gc_alloc_large`, asked for a small unboxed object that fits in the unboxed region, allocates it as a boxed one
  (`src/lisp/gencgc.c:1548-1549`); none of its callers asks for that.
- The single slot for a pending signal can be overwritten, and a signal lost, in one way: a handler that runs while interrupts
  are disabled (an error handler, or that of a signal that is not blockable) returns normally while a signal is pending that was
  deferred since it was called, because the context it returns to does not have the signals blocked
  (`src/lisp/interrupt.c:298-342`, `DeferredSignals.SignalLost`). A run can be continued to an overwrite by a signal exactly
  if it has such a return (`DeferredSignals.OverwrittenExactly`).
- Entries that are dead but already on the needing-rehash list of a weak table are not freed, as the search follows their
  collision chain only (`src/lisp/gencgc.c:4339-4351`); they keep their references to the old space
  (`HashTables.WaitingEntryStays`). A dead entry is freed exactly if it is in the chain of its key's bucket
  (`HashTables.HashTable.DeadFreed`).
- Lazy zeroing is sound in every run (`MutatorRuns.Run`): new objects are zero although freed pages are zeroed only if their
  first word is not, because a mutator sets the tail of an object to zero before it makes it smaller
  (`src/code/array.lisp:1019-1064`; `src/code/bignum.lisp:315-318` demands it), so that the pages of a large object that are
  freed when it has shrunk are zero.
- An entry whose key and value are both the empty marker is never recorded for rehashing (`src/lisp/gencgc.c:4500-4508`).

## Model

| member | source | states |
|---|---|---|
| CheneyCollector.Collector.CopyObject | src/lisp/gc.c:94-125 | the new words hold what the object held, at the free pointer, and nothing else changes; new space has room |
| CheneyCollector.Collector.TransBoxed | src/lisp/gc.c:1112-1124 | the object is transported to the end of new space |
| CheneyCollector.Collector.TransWeakPointer | src/lisp/gc.c:1879-1902 | a weak pointer is transported and put in front of the chain of weak pointers |
| CheneyCollector.Collector.Forward | src/lisp/gc.c:1057-1075 | the forwarding pointer makes the copy part of the account of what has been copied, and only that word changes |
| CheneyCollector.Collector.CopyCons | src/lisp/gc.c:978-1000 | a cons is copied and forwarded |
| CheneyCollector.Collector.TransList | src/lisp/gc.c:979-1026 | a list is transported cell by cell, also a cyclic or shared one; the result is the forwarded first cell, and nothing outside of the cells and their copies changes |
| CheneyCollector.Collector.ScavengeWord | src/lisp/gc.c:354-402 | one word becomes what it refers to, moved; the words to step over are those of its object |
| CheneyCollector.Collector.Scavenge | src/lisp/gc.c:355-406 | exactly the words of an area that hold references are replaced, each by what it refers to, moved; the loop ends with exactly no words left |
| CheneyCollector.Collector.ScavengeNewspace | src/lisp/gc.c:409-419 | ends with every copy scavenged |
| CheneyCollector.Collector.ScanWeakPointers | src/lisp/gc.c:1911-1948 | every copied weak pointer has the forwarded value if its value was copied and is else broken, and the copies mirror their originals |
| CheneyCollector.Collector.CollectGarbage | src/lisp/gc.c:173-347 | a whole collection: the new heap mirrors the objects reached, roots follow, nothing outside the roots and the spaces changes, no more space is used, and the result can be collected in turn; by the type of each object, every word that may be a reference has followed what it referred to, which was copied too, data words and weak pointers are what they have to be, and only what can be reached has been copied |
| CheneyGraph.CollectedOk | src/lisp/gc.c:160-330 | a collected heap is a heap in order with the same roots, with the spaces exchanged, and no larger |
| CheneyGraph.NewHeapOk | src/lisp/gc.c:160-330 | the new space of a mirrored heap is in order: its objects are apart and refer to objects |
| CheneyGraph.CopiedClosed | src/lisp/gc.c:401-419 | when roots and copies have been scavenged the set of copied objects is closed under reference |
| CheneyGraph.ReachableClosed | src/lisp/gc.c:160-330 | the objects that every closed set has are themselves closed: the least set that a collection has to keep |
| CheneyGraph.WalkAgain | src/lisp/gc.c:354-402 | scavenging does not change where a later walk over the words stops |
| CheneyHeap.CopiesFit | src/lisp/gc.c:93-125 | new space never holds more than from space did |
| CheneyHeap.CopyStep | src/lisp/gc.c:93-125 | copying an object keeps the account of copies and originals |
| CheneyHeap.PassDone | src/lisp/gc.c:408-419 | what one pass over new space achieves |
| CheneyFields.SizeByKind | src/lisp/gc.c:1106-1130 | the size of an object by its type: the header and the words that it counts, for a vector header, length and elements, two words of a cons, four of a weak pointer, made even |
| CheneyFields.DataWordsLeast | src/lisp/gc.c:1282-1560 | a vector has the least number of words that hold its elements, a string those of one more |
| CheneyFields.SkipByKind | src/lisp/gc.c:354-402 | exactly objects of data and weak pointers are stepped over as a whole |
| CheneyFields.CollectedFields | src/lisp/gc.c:160-330 | by type: every word of the copy of a cons, instance, boxed object or simple vector is what the original word refers to, moved, and that was copied too; every word of data is the same |
| CheneyFields.CollectedWeaks | src/lisp/gc.c:1911-1948 | the copy of a weak pointer has its value, moved, if that was copied, and else is broken |
| CheneyFields.CollectedRoots | src/lisp/gc.c:354-402 | every word of a root area follows what it refers to, but those within objects of data |
| CheneyFields.CollectedReached | src/lisp/gc.c:160-330 | what has been copied is in every set that has what the roots refer to and, by the type of each object, what its words refer to |
| RemPio2.SetUp | src/lisp/k_rem_pio2.c:160-174 | the table is expanded and multiplied exactly with the argument |
| RemPio2.Distill | src/lisp/k_rem_pio2.c:178-183 | breaking the products into 24-bit digits keeps the number, and every intermediate is below 2^53 and so exact |
| RemPio2.IntegerPart | src/lisp/k_rem_pio2.c:185-189 | the integer part modulo 8 and the fraction of the leading product |
| RemPio2.HighBits | src/lisp/k_rem_pio2.c:190-197 | moving the top bits of the digits into the quadrant keeps the sum, and ih says whether the fraction is half or more |
| RemPio2.Complement | src/lisp/k_rem_pio2.c:200-208 | the complement with carry is exactly what the digits lack to one |
| RemPio2.Mask | src/lisp/k_rem_pio2.c:209-216 | masking the top digit takes away exactly the whole part |
| RemPio2.Fold | src/lisp/k_rem_pio2.c:199-221 | a fraction of half or more is replaced by one minus itself and counted into the quadrant |
| RemPio2.Pass | src/lisp/k_rem_pio2.c:177-221 | one pass yields quadrant and signed fraction of the truncated product modulo 8, the fraction at most 1/2 |
| RemPio2.Extend | src/lisp/k_rem_pio2.c:230-236 | recomputing adds exactly the products with the further digits |
| RemPio2.Chop | src/lisp/k_rem_pio2.c:240-252 | dropping zero digits or breaking z into digits keeps the value, and the top digit is not zero |
| RemPio2.Kernel | src/lisp/k_rem_pio2.c:150-252 | the quadrant theorem: for every exponent, one to three digits and every table, n plus the signed fraction is the truncated product of argument and 2/pi modulo 8; and it ends with a result exactly if the arrays and the table suffice until the product is far enough from zero to show |
| RemPio2.SucceedsWhenApart | src/lisp/k_rem_pio2.c:223-237 | if the product with so many digits is far enough from a multiple of one half, and the arrays and the table have as many, there is a result |
| RemPio2.SkippedEights | src/lisp/k_rem_pio2.c:160-167 | the terms skipped by jv are multiples of 8 |
| RemPio2.ProductDistilled | src/lisp/k_rem_pio2.c:160-190 | the product is what distillation made of it, up to multiples of 8 |
| RemPio2.WholeProduct | src/lisp/k_rem_pio2.c:26-75 | with all digits of the table the product is the value of the argument, at its exponent, times what the table stands for, which is 2/pi |
| RemPio2.SplitArgument | src/lisp/e_rem_pio2.c:150-161 | a 53-bit significand is cut into at most three 24-bit digits, without zeros at the end, that are exactly its value |
| PageHeap.Heap.constructor | src/lisp/gencgc.c:8282-8345 | a heap of free zero pages is in order |
| PageHeap.Heap.Search | src/lisp/gencgc.c:1085-1187 | finds the first page from which enough free pages follow, and passes over none that would do |
| PageHeap.Heap.ClearPage | src/lisp/gencgc.c:977-1020 | a free page is zeroed exactly if its first word says that it may not be zero |
| PageHeap.Heap.AllocNewRegion | src/lisp/gencgc.c:1047-1240 | opens a region of at least the size asked for, all zero and apart from all that is in use; fails only when from the start page on nothing has room |
| PageHeap.Heap.CountRegion | src/lisp/gencgc.c:1384-1440 | closing a region counts its words on its pages, the last of which is found |
| PageHeap.Heap.UpdatePageTables | src/lisp/gencgc.c:1350-1504 | closes a region: page table, counters, recorded area and invariants |
| PageHeap.Heap.TakePages | src/lisp/gencgc.c:1665-1755 | the pages of a large area are set up, and cleared where they were free |
| PageHeap.Heap.AllocLarge | src/lisp/gencgc.c:1514-1776 | the words given out are new, zero and belong to no other object; a large object begins a page; a small one that fits in the region of its kind is allocated as a boxed one, whatever its kind; fails only when nothing has room |
| PageHeap.Heap.TryCurrentRegion | src/lisp/gencgc.c:1833-1863 | allocates in the open region exactly if there is room |
| PageHeap.Heap.AllocRegion | src/lisp/gencgc.c:1873-1970 | allocates in the region, a new one or outside; it never falls through |
| PageHeap.Heap.RetryInNewRegion | src/lisp/gencgc.c:1953-1970 | the second attempt finds room in the new region: the final assertion is never reached |
| PageHeap.Heap.QuickAlloc | src/lisp/gencgc.c:1992-2090 | every allocation yields zero words that no object had, keeps every word in use, and keeps all invariants of table, objects, counters and zero pages; it fails only when memory has run out |
| PageTable.TotalOfGenerations | src/lisp/gencgc.c:1384-1457 | the bytes of all pages are those of the generations together |
| PageTable.CloseOk | src/lisp/gencgc.c:1349-1504 | closing a region keeps the page table invariant, with the chain of offsets |
| PageTable.OpenOk | src/lisp/gencgc.c:1193-1244 | opening one does |
| PageTable.TakeOk | src/lisp/gencgc.c:1665-1760 | taking pages for a large area does |
| PageTable.CloseSum | src/lisp/gencgc.c:1384-1457 | closing a region adds exactly its words to its generation |
| PageTable.TakeSum | src/lisp/gencgc.c:1702-1762 | a large area adds exactly its words |
| PageObjects.CloseObjects | src/lisp/gencgc.c:1349-1504 | closing a region keeps objects whole, apart and found from the offsets of their pages |
| PageObjects.TakeObjects | src/lisp/gencgc.c:1665-1760 | a large area is an object of its own, apart from the others |
| PageObjects.BumpObjects | src/lisp/gencgc.c:1840-1862 | an object allocated in a region is apart from the others |
| PageBlocks.PinsWholeObjects | src/lisp/gencgc.c:6392-6431 | an object with a word on a pinned page lies wholly on pinned pages |
| PageBlocks.PinOk | src/lisp/gencgc.c:6392-6431 | pinning keeps the page table invariant |
| PageBlocks.PinSum | src/lisp/gencgc.c:6392-6431 | pinning moves exactly the words of the block between the generations |
| PageBlocks.LargeExtent | src/lisp/gencgc.c:2340-2400 | the pages that a large object runs over carry on from its first, all but the last full: the assertions about them hold |
| PageBlocks.ResizeSum | src/lisp/gencgc.c:2340-2441 | changing the size of a large object on its pages moves exactly its words, and frees the rest |
| PageBlocks.ObjectGeneration | src/lisp/gencgc.c:7123-7249 | an object is on pages of one generation |
| PageBlocks.FreeOk | src/lisp/gencgc.c:7123-7249 | freeing a generation keeps the page table invariant |
| PageBlocks.FreeSum | src/lisp/gencgc.c:7123-7249 | freeing takes exactly the words of the generation |
| PageBlocks.LowerSum | src/lisp/gencgc.c:7932-7943 | lowering moves exactly the words of the temporary generation |
| NewAreas.Add | src/lisp/gencgc.c:1276-1337 | recording makes the words of the area covered and no others, though it may be merged with a recent one, dropped by the mode, or lost when there are too many |
| PageGc.ResizeLarge | src/lisp/gencgc.c:2325-2400 | the pages of a large object change generation, and those that it no longer needs are freed |
| PageGc.PromoteLarge | src/lisp/gencgc.c:2315-2445 | a large object is promoted in place, with counters and record |
| PageGc.CopyLargeObject | src/lisp/gencgc.c:2315-2469 | a large object stays where it is and is promoted, any other is copied word for word |
| PageGc.MaybeAdjustLargeObject | src/lisp/gencgc.c:6133-6298 | a large vector keeps exactly the pages that its size needs, with the flag of its kind, the others are freed and their words given back; other objects stay as they are |
| PageGc.FindFirst | src/lisp/gencgc.c:6352-6390 | the page where a block begins |
| PageGc.PinForward | src/lisp/gencgc.c:6392-6431 | the pages of the block are pinned and change generation |
| PageGc.PreservePointer | src/lisp/gencgc.c:6323-6439 | a word into an old object pins the object, whole, where it is, with the pages that belong together with its own; other pages keep generation and flags, and no object becomes boxed or unboxed |
| ConservativeRoots.PreserveWord | src/lisp/gencgc.c:6323-6439 | no object that a valid word points into is left in the old space, and no pages leave it but those that belong together with the page of such a word |
| ConservativeRoots.PreserveStack | src/lisp/gencgc.c:7791-7800 | no object that one of the words of the control stack points into is left there, and every page that has left it is pinned by one of the words |
| PageGc.FreeOldspace | src/lisp/gencgc.c:7124-7249 | exactly the objects of the generation are gone, other words are as they were, and freed is what was counted |
| PageGc.BeginCollection | src/lisp/gencgc.c:7744-7789 | allocation goes to the new space, no page is pinned, the old space is writable, bytes are as they were |
| PageGc.LowerGeneration | src/lisp/gencgc.c:7932-7943 | what is in the temporary generation gets its number back, and the asserted counter is zero |
| PageGc.Flush | src/lisp/gencgc.c:7921-7923 | both regions are closed, and no word in use changes |
| PageRuns.TailFromSlack | src/lisp/gencgc.c:1482-1492 | behind the end of a large object there are zeros |
| NewspaceScan.CopyObject | src/lisp/gencgc.c:2272-2304 | an unmoved old object is copied and forwarded: one object fewer is unmoved, and no word to be scavenged escapes the record |
| NewspaceScan.PromoteObject | src/lisp/gencgc.c:2315-2400 | a large object is moved in place, with the same effect |
| NewspaceScan.TransList | src/lisp/gencgc.c:3887-3948 | a list is copied in one go: the copies are linked in order, the last one ends the list or goes on with a cons that has been copied, the reference follows, and no other word outside the old space changes |
| NewspaceScan.ScavengeWord | src/lisp/gencgc.c:2717-2780 | the word no longer refers to the old space: its object, or its list, has been moved |
| NewspaceScan.Scavenge | src/lisp/gencgc.c:2719-2808 | unboxed objects are stepped over, exactly no words are left over at the end, none of the other words refers to the old space, and it fails only when memory has run out |
| NewspaceScan.BlockUncut | src/lisp/gencgc.c:6770-6800 | no unboxed object runs over the end of a block of pages that is scanned, so that stepping over objects ends there exactly |
| WriteBarrier.WholeBlock | src/lisp/gencgc.c:6627-6672 | nor over the ends of one that scavenge_generation scans |
| NewspaceScan.ScanBlock | src/lisp/gencgc.c:6760-6830 | a block is scanned while only later pages are left out of the record |
| NewspaceScan.OneScan | src/lisp/gencgc.c:6752-6868 | after a scan of all pages everything left to be scavenged is recorded, or areas were lost |
| NewspaceScan.ScavengeAreas | src/lisp/gencgc.c:7011-7028 | after the areas recorded before are scavenged everything left is recorded anew, or areas were lost |
| NewspaceScan.Round | src/lisp/gencgc.c:6951-7054 | a round that moves no object leaves nothing recorded |
| NewspaceScan.ScavengeNewspace | src/lisp/gencgc.c:6884-7081 | it ends, and then no boxed word outside the old space refers to it, although areas are dropped, merged or lost; objects mirror what they were; and it fails only when memory has run out |
| Newspace.CopiedInv | src/lisp/gencgc.c:2272-2312 | copying an object keeps the invariant of a collection |
| Newspace.ForwardInv | src/lisp/gencgc.c:2272-2312 | so does forwarding it |
| Newspace.UpdateInv | src/lisp/gencgc.c:2717-2780 | so does replacing a reference by the forwarded one |
| Newspace.PromotedInv | src/lisp/gencgc.c:2315-2441 | so does promoting a large object in place |
| NewspaceMirror.CopiedMirrors | src/lisp/gencgc.c:2272-2312 | a new copy mirrors its original |
| NewspaceMirror.ForwardMirrors | src/lisp/gencgc.c:2272-2312 | forwarding keeps that words differ only by where objects have gone, and that no two go to the same place |
| NewspaceMirror.UpdateMirrors | src/lisp/gencgc.c:2717-2780 | so does following a reference |
| NewspaceTrace.CopiedTraced | src/lisp/gencgc.c:2272-2312 | copying an object of a set that is closed under reference leads out of the set with no word that still has to be scavenged |
| NewspaceTrace.ForwardTraced | src/lisp/gencgc.c:2272-2312 | forwarding it moves nothing else, and every object that was not there at the beginning is the copy of one again |
| NewspaceTrace.PromotedTraced | src/lisp/gencgc.c:2272-2312 | promoting a large object in place leads out of the set neither |
| NewspaceTrace.UpdateTraced | src/lisp/gencgc.c:2717-2780 | nor does following a reference |
| WordAccount.CopiedWeight | src/lisp/gencgc.c:2272-2312 | a copy adds exactly its words to what is in use |
| WordAccount.ForwardWeight | src/lisp/gencgc.c:2717-2780 | forwarding an object gives up exactly its words |
| WordAccount.WeightAtEnd | src/lisp/gencgc.c:7121-7249 | what is in use after the old space has been freed is no more than what is in use less what has been forwarded |
| WordAccount.WordsCounted | src/lisp/gencgc.c:1384-1457 | with the regions closed the counters say how many words are in use |
| WriteBarrier.UpdatePageWriteProt | src/lisp/gencgc.c:6519-6578 | a page is write protected exactly if it is boxed and nothing on it is suspicious, and no protected page refers to a younger generation |
| WriteBarrier.SuspiciousReference | src/lisp/gencgc.c:6548-6560 | a reference to an object is suspicious exactly if the object is in a younger generation or the temporary one |
| WriteBarrier.SuspiciousAddress | src/lisp/gencgc.c:6548-6560 | any word is, exactly if as an address it is on a page in use of such a generation, or in an open region up to its free pointer |
| WriteBarrier.ScavengeGeneration | src/lisp/gencgc.c:6615-6717 | nothing in the generation refers to the old space, although blocks that are fully write protected are skipped |
| Resting.Allocate | src/lisp/gencgc.c:1992-2090 | allocation by the mutator, also of unboxed objects on boxed pages, keeps the invariant between collections, with the write barrier; it fails only when memory has run out |
| Resting.WriteBarrierFault | src/lisp/gencgc.c:481-500 | exactly the faults in the dynamic space are handled, and the page is writable |
| Resting.StoreWord | src/lisp/gencgc.c:481-500 | a store, with its fault, of any word in an unboxed object and of a well-formed one in a boxed object, keeps the invariant that protected pages refer to nothing younger |
| Resting.ShrunkRest | src/code/array.lisp:1019-1064 | an object that has shrunk, with zeros behind it that are raw no more, leaves the invariant between collections, with its zero free words |
| Resting.Shrink | src/code/array.lisp:1019-1064 | shrinking an object of either kind, after its tail has been set to zero with the faults of the stores, keeps the invariant, from which a collection can start; exactly the tail changes |
| Resting.WriteProtectGeneration | src/lisp/gencgc.c:7646-7668 | protecting all pages of a generation with no younger one keeps it |
| CollectionStart.BeginInv | src/lisp/gencgc.c:7744-7800 | whatever has been pinned, cut and unprotected, the invariant of a collection holds |
| CollectionStart.BeginGeneration | src/lisp/gencgc.c:7744-7800 | the collection begins with its invariant: only flags of pages have changed, and no object that the control stack points into is left in the old space |
| CollectionStart.BeginTraced | src/lisp/gencgc.c:7744-7800 | when a collection begins only what can be reached has left the old space, that is been pinned, or is referred to by a word that has to be scavenged |
| GenerationalCollection.ScavengeOthers | src/lisp/gencgc.c:7875-7882 | after the other generations have been scavenged none refers to the old space |
| GenerationalCollection.Evacuate | src/lisp/gencgc.c:7840-7889 | roots, other generations and new space are done: nothing refers to the old space; it fails only when memory has run out |
| GenerationalCollection.EndGeneration | src/lisp/gencgc.c:7921-7952 | the old space is gone, what stays gets its number back, also on pinned pages, older pages are as they were, and the invariant between collections holds |
| GenerationalCollection.GraphFinished | src/lisp/gencgc.c:7735-7970 | every object that is left has its contents and its kind, up to where objects have gone, and no two have gone to one place |
| GenerationalCollection.RoundKept | src/lisp/gencgc.c:7735-7970 | so every object that is left, wherever it is, has its size, kind and contents, and all that it refers to is left too |
| GenerationalCollection.RoundStack | src/lisp/gencgc.c:6399-6412 | what the control stack points into is left, where it was |
| GenerationalCollection.RoundReached | src/lisp/gencgc.c:7735-7970 | of the generation collected only objects are left that are in every set that has the objects on pinned pages and what the roots and the other generations refer to, and is closed under reference; and no others have come into being |
| GenerationalCollection.CollectGeneration | src/lisp/gencgc.c:7722-7970 | a whole collection of a generation keeps the objects that are left and the roots, what the control stack points into stays where it is, of the generation only what can be reached is left, and the invariant with the write barrier holds, from which the next one can start; a raised generation is empty, older generations are not touched, no more words are in use, and it fails only when memory has run out |
| KeptObjects.KeptThen | src/lisp/gencgc.c:8035-8082 | what two collections keep one after the other: objects are found by following them through both |
| KeptObjects.StackThen | src/lisp/gencgc.c:8035-8082 | what stays where it is through two collections in a row |
| KeptObjects.OlderThen | src/lisp/gencgc.c:8035-8082 | what two collections in a row leave untouched |
| LiveObjects.ReachedClosed | src/lisp/gencgc.c:7735-7970 | the objects that every closed set has are themselves closed |
| LiveObjects.ClosedThen | src/lisp/gencgc.c:8035-8082 | the places where collections have taken the objects of a closed set are a closed set for the next collection |
| LiveObjects.OnlyReachedThen | src/lisp/gencgc.c:8035-8082 | so if the last of several collections leaves only what can be reached, all together do, of all the generations collected |
| GenerationLoop.FlushIdle | src/lisp/gencgc.c:8028-8030 | closing the regions before a collection keeps the invariant, and every object where it is |
| GenerationLoop.LastFree | src/lisp/gencgc.c:7974-7987 | the page after the last one in use |
| GenerationLoop.Settle | src/lisp/gencgc.c:8111-8125 | the asserted region is empty; the mutator allocates to generation 0 again, with its invariant |
| GenerationLoop.Generations.constructor | src/lisp/gencgc.c:8312-8326 | the generations have their first policies |
| GenerationLoop.Generations.SetMaxGenToGc | src/lisp/gencgc.c:8638-8651 | the oldest generation to collect is clamped |
| GenerationLoop.Generations.CollectOne | src/lisp/gencgc.c:7744-7970 | a generation is collected, raised or not, so that only what can be reached is left of it, its next trigger is what survived plus what may be allocated, and the collections are counted |
| GenerationLoop.Generations.Turn | src/lisp/gencgc.c:8035-8068 | a generation is raised exactly if it is not the oldest to be collected and is younger than asked for or old enough; the memory age of the one that it is raised to grows by what is there, and its own starts again; only what can be reached is left |
| GenerationLoop.Generations.Turns | src/lisp/gencgc.c:8035-8082 | the loop: all generations before the last one collected are empty, with it if it was raised, and the one after it was not due; it ends |
| GenerationLoop.DueWhen | src/lisp/gencgc.c:709-716 | the next generation is collected exactly if it is younger than asked for, or the last one was raised, it is larger than its trigger, and its average age, without a division, is above its least one |
| GenerationLoop.Generations.CollectGarbage | src/lisp/gencgc.c:8001-8147 | a whole garbage collection of the real heap: every object that is left has its contents, roots and words refer to where the objects are, objects that the control stack points into have not moved, generations older than those collected are untouched, of the generations collected only what can be reached is left, no more words are in use than before, all generations before the one that is write protected are empty, the oldest is never raised, every one collected after the first was due and the next one was not; the heap is as the mutator needs it, and it fails only when memory has run out |
| MutatorRuns.RepNew | src/lisp/gencgc.c:1992-2090 | a new object is a new object of the machine, and the others are what they were |
| MutatorRuns.RepStore | src/lisp/gencgc.c:481-500 | a store changes the one word of the machine |
| MutatorRuns.RepShrink | src/code/array.lisp:1019-1064 | a shrunk object is cut in the machine, and the others are what they were |
| MutatorRuns.RepCollected | src/lisp/gencgc.c:8001-8147 | the machine does not notice a garbage collection |
| MutatorRuns.RegistersKept | src/lisp/gencgc.c:7791-7800 | registers on the control stack, which the collector does not change, refer to their objects still |
| MutatorRuns.CollectedUsable | src/lisp/gencgc.c:8001-8147 | after a collection of all generations without conservative roots every object in the heap is one that the program can get at, in the sense of the machine |
| MutatorRuns.Run | src/lisp/gencgc.c:8008-8125 | any run of allocations, loads, stores, shrinks and garbage collections, with registers that are scavenged and others on the control stack, is one of a machine without a collector, with the same output, and keeps the invariant with the write barrier and the zeros that lazy zeroing relies on; after a last collection of all generations without conservative roots there is nothing in the heap that the program cannot get at; it stops only when memory has run out |
| MutatorRuns.RunFromStart | src/lisp/gencgc.c:8282-8345 | so on a new heap every program puts out what it puts out on that machine, and after a last collection of all generations only what it can get at is there |
| HashChains.UnlinkOk | src/lisp/gencgc.c:4339-4351 | taking an entry out of its chain keeps the partition into acyclic lists |
| HashChains.PushOk | src/lisp/gencgc.c:4360-4370 | pushing an entry on a list does |
| HashChains.LeavesOut | src/lisp/gencgc.c:4356-4359 | a list that leaves out an entry is not full, so the counter that is decremented is positive |
| HashTables.HashTable.Unlink | src/lisp/gencgc.c:4335-4352 | the search finds the entry exactly if it is in the chain, and ends |
| HashTables.HashTable.FreeHashEntry | src/lisp/gencgc.c:4323-4383 | an entry of the chain is emptied, put on the free list and no longer counted; others stay, in their lists |
| HashTables.HashTable.RecordForRehashing | src/lisp/gencgc.c:4390-4418 | an entry of the chain goes to the list needing rehashing; others stay |
| HashTables.HashTable.MaybeRecordForRehashing | src/lisp/gencgc.c:4486-4510 | exactly a chained entry whose bucket has changed, and is not empty, is recorded |
| HashTables.HashTable.ScavHashEntries | src/lisp/gencgc.c:4519-4589 | afterwards every chained entry is in the chain of its current key, each entry is exactly kept with its words moved or given up because of what is dead, and with removal no chained entry refers to the old space |
| HashTables.HashTable.ScavWeakEntry | src/lisp/gencgc.c:4634-4680 | what a weak entry drags along survives, and nothing else |
| HashTables.HashTable.ScavWeakEntries | src/lisp/gencgc.c:4610-4684 | if nothing was scavenged every entry is closed; else more survives |
| HashTables.SettleWeakTables | src/lisp/gencgc.c:4690-4706 | the fixpoint ends, no side survives with a dead one that depends on it, and what survives is within every set that has this property and the rest of each list in it: it is the least |
| HashTables.ScanWeakTables | src/lisp/gencgc.c:4720-4738 | no chained entry of any weak table refers to the old space; which are freed and which are kept is decided, for each weakness, by what had survived; and if the tables were settled nothing more is copied |
| HashTables.HashTable.DoneDecided | src/lisp/gencgc.c:4427-4483 | of the entries in the chain of their key, a key table frees those whose key was dead, a value table those whose value was, a key-and-value table those of which one was, a key-or-value table those of which both were; the others are kept with their words moved |
| HashTables.HashTable.SettledEntry | src/lisp/gencgc.c:4540-4586 | once the weak tables are settled an entry is given up or scavenging it copies nothing |
| HashTables.ClosedExactly | src/lisp/gencgc.c:4634-4680 | an entry is settled exactly if both of its words survive, or what its table holds weakly does not; exactly if it drags nothing along that is dead |
| HashTables.HashTable.DeadFreed | src/lisp/gencgc.c:4339-4351 | of the entries with something dead exactly those in the chain of their key are freed, if that is asked for; the others keep their words |
| HashTables.HashTable.FreedDead | src/lisp/gencgc.c:4545-4580 | what is freed was dead |
| HashTables.WaitingEntryStays | src/lisp/gencgc.c:4339-4351 | a table with a dead entry that waits for rehashing: the last scan leaves it, with its reference to the old space |
| HashTables.OutcomeOk | src/lisp/gencgc.c:4540-4586 | each outcome of an entry keeps chained entries in the bucket of their key |
| RegionIndex.FindRegion | src/lisp/cgc.c:586-611 | for any pointer into a cluster the header of the one region that contains it, else none, although offsets saturate at 255; it ends |
| RegionIndex.Covered | src/lisp/cgc.c:585-611 | every chunk of a cluster is in a region |
| RegionIndex.Unique | src/lisp/cgc.c:585-611 | and in just one |
| RegionIndex.SplitTiled | src/lisp/cgc.c:241-271 | splitting a region keeps the tiling |
| RegionIndex.JoinTiled | src/lisp/cgc.c:326-340 | joining adjacent regions of a cluster does |
| RegionIndex.NewClusterTiled | src/lisp/cgc.c:409-436 | a new cluster does |
| RegionIndex.InitIndexed | src/lisp/cgc.c:219-239 | setting up the offsets of a region keeps the index of all |
| RegionLists.DetachOk | src/lisp/cgc.c:564-575 | taking a region out of its space through the address that leads to it keeps all lists, links back and tails |
| RegionLists.AttachOk | src/lisp/cgc.c:576-583 | appending it to the other does |
| RegionLists.SplitOk | src/lisp/cgc.c:249-262 | replacing a free region by what is left of it does |
| RegionHeaps.RegionHeap.constructor | src/lisp/cgc.c:1966-1990 | the empty heap is in order |
| RegionHeaps.RegionHeap.InitRegion | src/lisp/cgc.c:220-239 | the offsets of exactly the region are set up |
| RegionHeaps.RegionHeap.MaybeAllocLargeRegion | src/lisp/cgc.c:242-271 | a region of exactly the size asked for, cut from a free one; none only if no free one is large enough |
| RegionHeaps.RegionHeap.NewCluster | src/lisp/cgc.c:410-436 | a free region of at least 4 blocks is added, exactly if there is room for it |
| RegionHeaps.RegionHeap.AllocLargeRegion | src/lisp/cgc.c:443-458 | the second attempt cannot fail: there is no region only if no free one is large enough and there is no room for a cluster, which is made only then |
| RegionHeaps.RegionHeap.MoveToNewspace | src/lisp/cgc.c:556-583 | the region is at the end of the new space, is out of the old, is not moved twice, and all invariants of the heap hold |
| RegionHeaps.RegionHeap.AllocSmallRegion | src/lisp/cgc.c:462-475 | a region of one chunk that was free joins the new space |
| RegionHeaps.RegionHeap.AllocLarge | src/lisp/cgc.c:499-511 | a region of the least number of chunks that hold the bytes joins the new space, and its bytes are counted |
| RegionHeaps.RegionHeap.CgcAlloc | src/lisp/cgc.c:514-552 | the bytes lie in a region just added or past all that was given out of the current one, aligned and within it; they are counted, the old space is not touched, and there are none only if there is no room |
| RegionCollection.FreeRegion | src/lisp/cgc.c:480-496 | the region becomes the first of the list for its size |
| RegionCollection.FreeOldspace | src/lisp/cgc.c:1746-1761 | exactly the regions of the old space are free, and their chunks are counted |
| RegionCollection.JoinOk | src/lisp/cgc.c:328-340 | joining keeps the invariant of the pass over a cluster |
| RegionCollection.PrependOk | src/lisp/cgc.c:367-371 | additions put in front of a free list are a list with it |
| RegionCollection.CompactCluster | src/lisp/cgc.c:313-374 | all free regions of the cluster are listed and none is adjacent to another; owned regions stay |
| RegionCollection.CompactFreeRegions | src/lisp/cgc.c:377-386 | that holds of all clusters |
| RegionCollection.FlipSpaces | src/lisp/cgc.c:1521-1527 | the spaces are exchanged |
| RegionCollection.PreservePointer | src/lisp/cgc.c:1540-1550 | a pointer into a region of the old space moves that region, and any other nothing |
| RegionCollection.FinishCollection | src/lisp/cgc.c:1928-1942 | between collections the bytes allocated are those of the owned regions, the old space is empty, and no free regions are adjacent |
| RegionCollection.GivenNext | src/lisp/cgc.c:514-552 | what is given out next is apart from all that has been given out before |
| RegionCollection.CollectGarbage | src/lisp/cgc.c:1902-1944 | whatever is moved and copied between the flip and the end, the regions that pointers led into are kept, what has been copied is apart from them and from each other, no other regions are left, the invariants between collections hold again, the bytes counted are those of the owned regions, and no free regions are adjacent |
| RegionCollection.Run | src/lisp/cgc.c:1546-1600 | any run of allocations and collections, until memory runs out, keeps the regions tiled and found through the index, each in one list, the old space empty and the bytes counted; and what has been given out since the last collection, or copied in it, is in the new space and apart |
| Utf16Output.Utf8 | src/lisp/interr.c:172-193 | the octets of RFC 3629, section 3 |
| Utf16Output.Surrogatep | src/lisp/interr.c:202-216 | exactly the surrogates, with their kind |
| Utf16Output.Utf16Codepoint | src/lisp/interr.c:225-259 | the code point of RFC 2781, section 2.2, or the replacement code for an unpaired surrogate, and the units read |
| Utf16Output.Utf16OutputString | src/lisp/interr.c:266-293 | the output is valid UTF-8 that decodes to the code points of the string; for any scalars and unpaired surrogates in its units, it is their UTF-8, with 0xFFFD for each unpaired surrogate; the loop ends, and no question mark is written |
| Utf16Output.CodesOfItems | src/lisp/interr.c:224-259 | the units of any sequence of scalars and unpaired surrogates, no high one directly before a low one, are read as these, the surrogates as 0xFFFD |
| Utf16Output.ItemsExist | src/lisp/interr.c:224-259 | all sequences of units are the units of such a sequence |
| Utf16Output.Examples | src/lisp/interr.c:171-194 | the examples of section 7 of RFC 3629 |
| Utf16Output.DecodeEncode | src/lisp/interr.c:171-194 | encoded code points are recovered by a decoder that accepts only the shortest forms |
| Utf16Output.EncodeDecode | src/lisp/interr.c:171-194 | valid UTF-8 is the only encoding of what it decodes to |
| Utf16Output.CodesOfUnits | src/lisp/interr.c:224-259 | well-formed UTF-16 is recovered exactly |
| Utf16Output.WellFormedWritten | src/lisp/interr.c:265-296 | a well-formed string is written as the UTF-8 of the same code points |
| Utf16Output.WrittenAlike | src/lisp/interr.c:265-296 | strings are written alike exactly if they have the same code points |
| DeferredSignals.NeverOverwritten | src/lisp/interrupt.c:298-342 | in every run in which no handler returns and leaves pending a signal deferred since it was called, the slot is never overwritten, each deferred signal is handled once, in order and with its mask, or is pending, and bindings and contexts match |
| DeferredSignals.LeftIsOverwritten | src/lisp/interrupt.c:298-342 | after any return that does, a signal that is no longer blocked can arrive and overwrites the slot |
| DeferredSignals.OverwrittenExactly | src/lisp/interrupt.c:298-342 | a signal can arrive in some state of a run and overwrite the pending one exactly if in the run a handler returns and leaves a signal pending that was deferred since it was called |
| DeferredSignals.SignalLost | src/lisp/interrupt.c:298-342 | a concrete run in which a signal is lost |
| DeferredSignals.StepOk | src/lisp/interrupt.c:187-342 | every other step keeps the invariants and overwrites nothing |
| DeferredSignals.TrapOk | src/lisp/interrupt.c:187-222 | the trap handles the pending signal with the mask it was deferred with |
| DeferredSignals.HandleNowOk | src/lisp/interrupt.c:244-296 | calling a handler keeps the invariants |
| DeferredSignals.DeliveredNow | src/lisp/interrupt.c:244-296 | a signal that is not deferred calls its handler, in a new frame with the mask of the interrupted context, as foreign exactly if it is a C function; an ignored one changes nothing, and one without a handler, or without room for its context, stops the program |
| DeferredSignals.DeliveredLater | src/lisp/interrupt.c:298-342 | a blockable signal that arrives with interrupts disabled or in a pseudo-atomic section is deferred, with its mask, and calls nothing |
| DeferredSignals.Trapped | src/lisp/interrupt.c:187-222 | the trap calls the handler of the pending signal, with the mask it was deferred with, and leaves the slot empty |
| DeferredSignals.ResumedCalled | src/lisp/interrupt.c:187-222 | a deferred signal counts as handled only in a step that calls its handler, unless it is ignored or stops the program |
| DeferredSignals.ReturnContexts | src/lisp/interrupt.c:129-151 | a handler that returns leaves the index of contexts and the mask as they were when it was called, and what it interrupted goes on |
| DeferredSignals.DeliverOk | src/lisp/interrupt.c:319-342 | a signal that arrives is deferred only into an empty slot |
| DynamicBinding.BindingStack.BindVariable | src/lisp/dynbind.c:19-31 | the symbol has its new value, and the stack its old one |
| DynamicBinding.BindingStack.Unbind | src/lisp/dynbind.c:34-48 | the last binding is undone |
| DynamicBinding.BindingStack.UnbindToHere | src/lisp/dynbind.c:51-69 | all bindings above the target are undone, the last first, and the rest of the stack is as it was |
| DynamicBinding.UndoneBound | src/lisp/dynbind.c:18-69 | undoing any list of bindings, with repetitions, restores every value |
| DynamicBinding.SavedNext | src/lisp/dynbind.c:18-31 | one more binding saves one more value |

## Left out

- Heap overflow: an allocation that finds no room reports it, and what the runtime does then is not modelled.
- `enable_page_protection` is TRUE, as it is by default.
- Header words: in the generational model a directory beside the memory (`Heap.objs`, `Heap.raw`) says where objects end and
  which are unboxed, and whether an object is of a type that is promoted when it is large, or cut when it is pinned, is an
  input; the stop-and-copy model reads its header words. Headers keep their places only in that the first word of an object
  is never the forwarding mark.
- GenerationalCollection.Evacuate: leaves out weak objects; what else is scavenged as a root is one array of words.
- GenerationalCollection.EndGeneration: the trigger and the count of collections are in `GenerationLoop.Generations.CollectOne`.
- NewspaceScan.Scavenge: steps over unboxed objects; the other objects over several words of which the original steps at once
  (code, closures, fdefns, weak pointers and hash vectors) are scanned word by word.
- NewspaceScan.TransList: that what is referred to with the lowtag of a list is a cons of two words is not modelled; its size is
  the one its shape gives.
- NewspaceScan.Round: leaves out the calls of `scav_weak_tables`; the weak tables' fixpoint is proved by itself.
- NewspaceScan.ScavengeNewspace: leaves out weak pointers and weak hash tables.
- The search for the object around a word on the control stack (`src/lisp/gencgc.c:5911-6125`): its verdict is an input. In
  `MutatorRuns` it finds all references to objects valid, and any other words that it likes.
- Code objects, fixups, closures, fdefns, interrupt-context registers, scavenger hooks, zeroing of the control stack,
  verification passes, marks on static vectors, statistics and printing; zeroing modes other than MODE_LAZY; core loading.
- Tags: a forwarded reference gets the lowtag of the first one that was followed, as in the original, but that all references to
  an object have the same lowtag is not modelled; `MutatorRuns` therefore does not let programs look at lowtags.
- The list of recorded areas is emptied when a collection begins, where the original only does so when recording begins.
- Resting.Shrink: the size of an object after it has shrunk is given in words, an even number as objects are aligned; the
  store of the new length in its header is not modelled.
- Regions, free lists and hash vectors are sequences in fields of their classes, reassigned where the original stores in memory.
- HashTables.HashTable.FreeHashEntry: does not model the stores in a table's hash vector; the tables have none, so all entries
  are EQ-based.
- HashTables.ScanWeakTables: the list of weak tables, linked through a slot, is a sequence, and its links are not reset.
- The offsets of all clusters are one table, indexed by the number of the chunk, where the original has one in each cluster.
- RegionHeaps.RegionHeap.NewCluster: chunk counts are those that the 16-bit field holds, at most 511 blocks in a cluster.
- RegionCollection.CompactCluster: the zeroing of free regions, and with it the contents of regions, is not modelled.
- Tracing in `cgc.c`: what is moved and copied between the flip and the end of a collection is any sequence
  (`RegionCollection.CollectGarbage`).
- RemPio2.Kernel: where the original's search for a nonzero digit or its recomputation would run past its arrays or its table
  the result is `ok` false, exactly then; the final floating-point sums, which round, are not modelled.
- Utf16Output.Utf16Codepoint: the unit after the string is zero, as after every Lisp string; another one that is a low
  surrogate could make the loop of `utf16_output` run past the end.
- DeferredSignals.TrapOk: leaves out the collection request that is deferred on ports without the generational collector
  (`src/lisp/interrupt.c:371-402`).
- Non-local exits from handlers, the registers saved in contexts, and the x86 ports, where Lisp code is always a foreign call
  for the handlers.
- The fdlibm polynomials, operating system ports, the monitor, the printer, CLX and breakpoints: floating-point error analysis,
  I/O and foreign calls.
