# A verified model of the yoyo allocator

This project models a from-scratch `malloc` and proves, with Dafny's verifier, what its data structures, its locks and its
memory routines are for. Check it with `dafny verify dfyconfig.toml`.

The allocator serves TINY and SMALL requests from zones: aligned mappings that hold a header, two bitmaps (chunk heads and
used chunks) and a heap of 16-byte blocks. Each chunk begins with a one-block header; the free chunks are threaded on an
address-ordered list with a roving next-fit pointer. LARGE requests are mapped one by one and kept on an ascending list.
Subarena locks guard the lists of zones and of LARGE chunks, zone locks the zones, and one lock the history book.

| file | part of the system |
|---|---|
| Wrappers, Sizes, NatBits, Words, Tagging, Bitmap, LinkedLists | sizes and size classes with 64-bit wrap-around, bit arithmetic, tagged pointers, bitmaps, linked lists |
| ZoneModel | the state of one zone as a value, its invariant, and each operation as a function |
| ZoneAlloc, ZoneFree, ZoneShrink | allocation, coalescing free and shrink keep the invariant |
| ZoneStore, ZoneTheorems, ZoneRuns | contents of live chunks, what the invariant implies, runs of operations on one zone |
| Zone | the zone as a class with byte-array bitmaps and in-place updates, each method equal to its function |
| ZoneLayout | where the parts of a zone lie, address to zone, aligned mapping |
| LargeList, ZoneSort | the LARGE in-use list and the sort of zone lists, as sequences and as links in memory |
| HeapModel, HeapProofs, HeapOps, HeapRealloc, Alignment, HeapRuns | the whole allocator with addresses: malloc, free, realloc, memalign, release_memory, and runs of them |
| HeapExact | which memory malloc, free and realloc take, and what they leave alone |
| Heap | the allocator as a class with list-walking, copying and releasing loops |
| Locking, LockingProofs, LockingSteps, LockingPositions, LockingTheorems | the locking protocol as steps of many threads: no race, no bad pointer, no deadlock |
| LockingAccounts, LockingTours, LockingProgress | who holds each live chunk, what a thread has looked at before it maps, waits or gives up, and that no call runs forever |
| History | the history book as steps of many threads, and as a class |
| MemoryRoutines | the word-at-a-time memory and string routines of libft |

How the model stands for the program:

- A heap block is a `Cell`: a chunk header or 16 bytes of data, never both, so writing one destroys the other. Pointers
  into a zone are block indices; the flags in the low bits of `next` are a field of the header, which `Tagging` justifies
  on 64-bit words.
- `mmap` is a parameter: it returns a fresh zero-filled range, or fails. So are the outcomes of `try_lock_zone` in the
  sequential model and the interleaving in the locking model. The page size is a power of two that divides the zone sizes.
- In the locking model a zone is reduced to its lock, its subarena and its set of live chunks. That a fresh zone always
  serves the first request is `ZoneRuns.FreshZoneServes`.
- In the locking model realloc that moves has its new chunk in hand while it frees the old one, and returns it when that
  is done; the record of `LockingAccounts` is the set of chunks returned to the application and not handed back.
- The header and the body of a live chunk are read and written without the zone lock by the thread that has the chunk in
  hand, as free and realloc do before they lock; that no chunk is in two hands is part of the protocol invariant.
- The library routines work on one byte array, and pointers are indices into it.

Where the code does not do what one might expect of it, the model follows the code:

- realloc classifies a chunk by its blocks with the header, so a chunk of the largest size of its class (65 or 961 blocks)
  is never resized in place (`ZoneRuns.InPlaceIffFits`), and a piece cut off a SMALL chunk may be one block smaller than
  any live SMALL chunk. Free would not find the zone of a live chunk of that size (`ZoneLayout.SizesThatFindSmallZones`).
- `divide_and_sort` does not look at every neighbouring pair before it decides that a list is sorted.
  `ZoneSort.FlagMissesADescent` gives an input that stays unsorted, `ZoneSort.SortsIff` says exactly which lists are sorted.
- malloc fills what it returns without a test for NULL (srcs/actual_malloc.c:312). With a scribbler byte set it reads a
  header at NULL - 16 instead of returning NULL (`HeapRealloc.FirstByteCrashes`); `HeapRealloc.MallocCrashesExactly` says
  exactly when, and the claims about NULL are about calls that return it. In the locking and history models, where zones
  have no contents, a malloc that finds no memory returns NULL; a crash would end every run there.
- strlen reads whole words, at first an unaligned one if the string ends before a word boundary, and can read past the end
  of memory (`MemoryRoutines.OverreadAtTheEnd`); `MemoryRoutines.StrlenOverreads` says exactly when.
- After a failed extension the history book accepts at most ten more items (`HistoryModel.NothingLoggedAfterFailure`).
- `UNSET_FLAGS` clears every flag, not the ones named (`Tagging.UnsetClearsAll`). No code uses it.

## Model

| member | source | states |
|---|---|---|
| `Sizes.BlocksForSize` | includes/structure.h:62-63 | BLOCKS_FOR_SIZE is the least number of 16-byte blocks that holds n, 1 for 0, and 0 exactly for the last 15 sizes, whose rounding wraps |
| `Sizes.SizesOfTheHeaders` | includes/structure.h:62-75 | the 16-byte unit, the 32 bytes of the LARGE header, the 48 bytes before a LARGE body and the class limits in blocks, computed from the sizes of the two structures |
| `Sizes.ClassBySize` | srcs/zone_utils.c:27-39 | the class of a request by its bytes: TINY up to 1024, SMALL up to 15360, LARGE above, and TINY again for the last 15 sizes, whose rounding wraps |
| `Sizes.RejectsOnlyTheLast31` | srcs/actual_malloc.c:284-290 | the check at the head of malloc rejects n if and only if n > 2^64 - 32 |
| `Sizes.CeilByExact` | includes/structure.h:18 | CEIL_BY with a divisor of the word size is the least multiple at or above its argument, or 0 when that multiple is 2^64 |
| `Sizes.LargePlanIsExact` | srcs/actual_malloc.c:33-62 | a LARGE request is planned if and only if its 48 + 16 * blocks bytes, rounded up to pages, stay below 2^64; the plan is that page multiple, with no wrapped intermediate, and its block count is the one malloc needs |
| `Sizes.CallocChecksTheProduct` | srcs/actual_malloc.c:316-326 | calloc refuses exactly the products that do not fit a size_t, and otherwise asks for the true product, or 1 byte if a factor is 0 |
| `NatBits.PowerOf2Test` | srcs/memory_utils.c:43-45 | is_power_of_2 accepts exactly the powers of two |
| `NatBits.AndLowMask` | libft/ft_memutils.c:16-19 | a mask of the low k bits is the remainder modulo 2^k |
| `NatBits.AndHighMask` | srcs/zone_utils.c:64-66 | a mask of all but the low k bits rounds down to a multiple of 2^k |
| `Tagging.TaggedPointer` | includes/flag.h:18-37 | an address and three flags stored in one word can both be read back, and the LARGE and pseudo tests see exactly their flags |
| `Tagging.TaggingIsInjective` | includes/flag.h:25 | different address and flag pairs make different words |
| `Tagging.FlagsAreCopied` | includes/flag.h:30 | COPY_FLAGS takes the address of one word and the flags of the other, and copying back restores the first |
| `Tagging.CleanLinksStayClean` | includes/flag.h:30-37 | a link whose flags are clear stays neither LARGE nor pseudo under COPY_FLAGS |
| `Tagging.UnsetClearsAll` | includes/flag.h:27 | UNSET_FLAGS clears all three flags whatever flags are named |
| `Bitmap.OwnBit` | srcs/zone_operation.c:17-27 | setting or clearing the bit of one block changes the bit of no other block |
| `Bitmap.Tags` | srcs/zone_bitmap.c:20-33 | the two bitmaps read as one tag a block: not a head, free head, used head |
| `Bitmap.Marking` | srcs/zone_operation.c:4-40 | mark_chunk_as_free, mark_chunk_as_used and unmark_chunk each set the tag of one block, leave all others, and keep the bitmaps consistent |
| `ZoneModel.NextFree` | srcs/actual_free.c:26-36 | the first free chunk at or after a block, or none |
| `ZoneModel.PrevFree` | srcs/actual_free.c:26-36 | the last free chunk before a block, or none |
| `ZoneModel.FirstFit` | srcs/actual_malloc.c:205-223 | the lowest free chunk of a range that is an exact fit or separable, or none if no chunk of the range fits |
| `ZoneAlloc.NextFitFits` | srcs/actual_malloc.c:187-235 | a chunk returned by the search fits and lies in the heap; nothing is returned if and only if too few blocks are free or no free chunk fits |
| `ZoneAlloc.SeparatableExactly` | srcs/actual_malloc.c:119-146 | is_separatable holds if and only if the rest would do as the smallest live chunk of the class |
| `ZoneAlloc.SeparableRest` | srcs/actual_malloc.c:119-146 | a separable chunk leaves a rest of at least two blocks |
| `ZoneAlloc.TakeKeepsCore` | srcs/actual_malloc.c:156-184 | exact fit and split keep the tiling, the threaded list, the counters and the rover |
| `ZoneAlloc.TakeSeals` | srcs/actual_malloc.c:156-184 | exact fit and split leave no two adjacent free chunks |
| `ZoneAlloc.TakeClasses` | srcs/actual_malloc.c:119-184 | exact fit and split keep every live and free size within the limits of the zone's class |
| `ZoneAlloc.TakeKeepsInv` | srcs/actual_malloc.c:156-184 | the whole zone invariant survives an exact fit and a split |
| `ZoneFree.InsertIsLinkThenUnite` | srcs/actual_free.c:42-50 | uniting to the right before the chunk is linked from the left, as the code does, equals linking first and uniting afterwards |
| `ZoneFree.InsertCoalesces` | srcs/actual_free.c:22-55 | the steps of the insertion compute one closed form: the freed chunk joined with exactly the free chunks it touches |
| `ZoneFree.CoalesceKeepsCore` | srcs/actual_free.c:22-55 | after an insertion the chunks tile the heap, the list is ascending and exact, counters and rover are right |
| `ZoneFree.CoalesceSeals` | srcs/actual_free.c:5-55 | after an insertion no two free chunks are adjacent |
| `ZoneFree.BodiesAreFree` | srcs/debug.c:57-69 | rewriting any cells that are not chunk headers keeps the zone invariant |
| `ZoneFree.FreeFills` | srcs/debug.c:57-69 | the fill of a free covers at least the whole body of the freed chunk |
| `ZoneFree.FreeKeepsInv` | srcs/actual_free.c:57-68 | free with its scribble fill keeps the invariant, for a freed piece that only meets the weaker limit for free chunks |
| `ZoneShrink.ShrinkIsFree` | srcs/actual_realloc.c:43-66 | shrinking is freeing the tail, as if it had been a live chunk of its own |
| `ZoneShrink.ShrinkKeepsInv` | srcs/actual_realloc.c:43-66 | shrink_chunk keeps the zone invariant |
| `ZoneStore.ChunksDisjoint` | srcs/actual_malloc.c:165-184 | a chunk ends at or before the header of every later chunk |
| `ZoneStore.TakeStore` | srcs/actual_malloc.c:187-235 | an allocation adds one body of exactly the requested blocks and changes no other body |
| `ZoneStore.FreeStore` | srcs/actual_free.c:57-68 | a free removes one body and changes no other, with the scribble fill after coalescing |
| `ZoneStore.ShrinkStore` | srcs/actual_realloc.c:43-66 | a shrink keeps the first blocks of the body and every other body |
| `ZoneTheorems.BlocksAddUp` | srcs/actual_malloc.c:156-184 | blocks_free + blocks_used is the number of heap blocks, neither is negative, and each bounds every chunk it counts |
| `ZoneTheorems.EntirelyFree` | srcs/release.c:10 | blocks_free == blocks_heap holds if and only if the list is one free chunk over the whole heap, and if and only if no chunk is in use |
| `ZoneTheorems.BitmapsDetermineZone` | srcs/zone_operation.c:4-40 | two sound zones with the same bitmaps have the same chunk sizes, free list and counters |
| `ZoneTheorems.FreeListIsFreeHeads` | srcs/actual_free.c:26-36 | following the links from the list head visits exactly the free chunks, once each, in ascending address order |
| `ZoneTheorems.SearchStartIs` | srcs/actual_malloc.c:196-204 | the chunk looked at first is the first free chunk behind the one at free_prev, or the first of all if free_prev is NULL or the last |
| `ZoneTheorems.FitsExactly` | srcs/actual_malloc.c:119-153 | a free chunk fits if it has just the blocks of the request and its header, or leaves enough for the smallest live chunk of its class |
| `ZoneTheorems.NextFitIs` | srcs/actual_malloc.c:187-235 | the search returns the lowest fitting chunk behind the one at free_prev, if there is one, otherwise the lowest fitting chunk of all, and nothing if and only if none fits; said over free_prev, the tags and the fit alone |
| `ZoneTheorems.NextFitUnique` | srcs/actual_malloc.c:187-235 | that leaves only one answer |
| `ZoneTheorems.RoverAfterTake` | srcs/actual_malloc.c:207-231 | after an allocation free_prev is the first free chunk of the zone, or NULL if none is left |
| `ZoneTheorems.RoverAfterFree` | srcs/actual_free.c:47-50 | after a free free_prev is the free chunk that the freed blocks are now part of |
| `ZoneRuns.InPlaceIffFits` | srcs/actual_realloc.c:86-119 | realloc stays in place if and only if the request is of the chunk's true class, fits, and the chunk is below the largest size of its class, which is the misclassified one |
| `ZoneRuns.PlanExactly` | srcs/actual_realloc.c:80-120 | realloc relocates if and only if the class differs, the chunk has the largest size of its class, or it is too small; else it shrinks if and only if the cut part can be a free chunk of the class |
| `ZoneRuns.ShrinkRespectsClass` | srcs/actual_realloc.c:97-118 | every arm of realloc has room for the request, and a shrink leaves a kept part and a cut part within their class limits |
| `ZoneRuns.AllocateKeepsInv` | srcs/actual_malloc.c:187-235 | an allocation and its fill keep the zone invariant |
| `ZoneRuns.AllocateEffect` | srcs/actual_malloc.c:187-235 | a failed allocation leaves the zone as it was, a successful one adds one body; it fails if and only if the size has no block count or no free chunk fits |
| `ZoneRuns.AllocateChooses` | srcs/actual_malloc.c:187-235 | a successful allocation takes the next-fit chunk and leaves free_prev at the first free chunk |
| `ZoneRuns.AllocateFills` | srcs/debug.c:57-69 | with a scribbler, every block of a new body holds its byte |
| `ZoneRuns.ReleaseFills` | srcs/debug.c:57-69 | with a scribbler, every block of a freed body holds the complement of its byte |
| `ZoneRuns.ResizeFills` | srcs/debug.c:57-69 | with a scribbler, so does every block of the piece that a shrink cuts off |
| `ZoneRuns.FreshZone` | srcs/zone_initialize.c:22-58 | init_zone establishes the zone invariant |
| `ZoneRuns.FreshZoneServes` | srcs/actual_malloc.c:254-265 | a new zone serves every request of its class at once, at its first block |
| `ZoneRuns.StepKeepsInv` | srcs/actual_malloc.c:187-235 | malloc, free, shrink and caller writes each keep the zone invariant |
| `ZoneRuns.RunKeepsInv` | srcs/actual_free.c:57-68 | the zone invariant holds after any sequence of operations |
| `ZoneRuns.StepHasEffect` | srcs/actual_realloc.c:43-66 | each operation does to the map of live contents what its specification without lists and bitmaps says |
| `ZoneRuns.RunKeepsContents` | srcs/actual_free.c:22-68 | the contents of a chunk survive any run that neither frees, resizes nor writes it |
| `ZoneClass.Zone.constructor` | srcs/zone_initialize.c:22-58 | init_zone in place yields the fresh zone on zero-filled memory |
| `ZoneClass.Zone.MarkChunkAsFree` | srcs/zone_operation.c:17-27 | the two bitmap writes make the block a free head and change nothing else |
| `ZoneClass.Zone.MarkChunkAsUsed` | srcs/zone_operation.c:30-40 | the two bitmap writes make the block a used head and change nothing else |
| `ZoneClass.Zone.UnmarkChunk` | srcs/zone_operation.c:4-14 | the two bitmap writes make the block no head and change nothing else |
| `ZoneClass.Zone.TryUniteFreeChunks` | srcs/actual_free.c:5-20 | the in-place union equals the specification and reports whether it happened |
| `ZoneClass.Zone.FindNeighbours` | srcs/actual_free.c:26-36 | the walk along the list finds the free neighbours of a chunk in address order |
| `ZoneClass.Zone.InsertChunk` | srcs/actual_free.c:22-55 | the in-place insertion equals the specified insertion with coalescing |
| `ZoneClass.Zone.FillChunk` | srcs/debug.c:57-69 | the fill loop writes exactly the body of the chunk, or nothing without a scribbler |
| `ZoneClass.Zone.FreeFromLockedZone` | srcs/actual_free.c:57-68 | marking, inserting and filling in place equal the specified free |
| `ZoneClass.Zone.FreeChunk` | srcs/actual_free.c:78-85 | free under the zone lock keeps the invariant, and leaves the zone alone if the header is not a used head |
| `ZoneClass.Zone.ExhaustChunk` | srcs/actual_malloc.c:156-162 | the in-place exact fit equals the specification |
| `ZoneClass.Zone.SeparateChunk` | srcs/actual_malloc.c:165-184 | the in-place split equals the specification |
| `ZoneClass.Zone.TakeChunk` | srcs/actual_malloc.c:207-231 | the two ways of serving a request equal the specified allocation, with the rover reset to the list head |
| `ZoneClass.Zone.StartSearch` | srcs/actual_malloc.c:196-204 | the search starts at the first free chunk behind the one at free_prev, or at the first of all, with prev its true predecessor |
| `ZoneClass.Zone.Search` | srcs/actual_malloc.c:196-223 | the walk stops, prev is the true predecessor of what it returns, and that is the next-fit chunk: the lowest fitting one behind free_prev, otherwise the lowest of all, or nothing if none fits |
| `ZoneClass.SearchStep` | srcs/actual_malloc.c:212-223 | one round of the walk, through the wrap-around too, passes exactly one more chunk that does not fit |
| `ZoneClass.Zone.TryAllocateChunk` | srcs/actual_malloc.c:187-235 | allocation in place keeps the invariant, returns the lowest fitting chunk behind free_prev, otherwise the lowest of all, and leaves the zone untouched when it fails |
| `ZoneClass.Zone.ShrinkChunk` | srcs/actual_realloc.c:43-66 | shrinking in place keeps the invariant and equals the specification |
| `ZoneLayout.HeapIsLargest` | srcs/zone_initialize.c:6-12 | the block count is the largest multiple of 8 whose header, bitmaps and heap fit the zone |
| `ZoneLayout.PartsAreDisjoint` | srcs/zone_initialize.c:32-48 | header, heads bitmap, used bitmap and heap follow one another without overlap, and blocks are aligned |
| `ZoneLayout.RoomInAZone` | srcs/zone_utils.c:3-12 | zones keep their alignment as size and have room for two chunks of any size of their class, counted in 32 bits |
| `ZoneLayout.BlockIndexInverts` | srcs/zone_utils.c:42-45 | get_block_index inverts the address of a block |
| `ZoneLayout.MaskRoundsDown` | srcs/zone_utils.c:64-66 | the zone mask rounds an address down to a multiple of the zone size |
| `ZoneLayout.LiveChunkFindsZone` | srcs/zone_utils.c:49-67 | for a live chunk of a zone, its size and address lead get_zone_of_chunk to that zone |
| `ZoneLayout.SizesThatFindSmallZones` | srcs/zone_utils.c:49-67 | exactly the sizes 66 to 961 select the SMALL mask, and the smallest free SMALL chunk does not |
| `ZoneLayout.TrimmingAligns` | srcs/memory_alloc.c:25-53 | trimming a mapping of twice the size leaves an aligned range inside it and unmaps exactly the rest |
| `LargeList.InsertedAscending` | srcs/actual_malloc.c:67-94 | an ascending list stays ascending and gains exactly the new address |
| `LargeList.RemovedAscending` | srcs/actual_free.c:107-138 | an ascending list stays ascending and loses exactly the freed address |
| `LargeList.InsertThenRemove` | srcs/actual_free.c:107-138 | freeing a chunk that has just been inserted restores the list |
| `LargeList.LargeArena.InsertChunk` | srcs/actual_malloc.c:67-94 | the walk and the splice in memory insert the address at its place and touch no other link |
| `LargeList.LargeArena.RemoveChunk` | srcs/actual_free.c:107-138 | the walk and the unlinking in memory remove the address, whether first or later, or report that it is absent |
| `ZoneSort.MergeAscendingIff` | srcs/zone_utils.c:69-92 | merging disjoint lists gives an ascending list if and only if both are ascending |
| `ZoneSort.SortPermutes` | srcs/zone_utils.c:96-124 | sorting loses and repeats no zone |
| `ZoneSort.SortsIff` | srcs/zone_utils.c:96-124 | the result is ascending if and only if at every early exit the positions that the flag skips, even ones of the back half, are in order |
| `ZoneSort.SkippedPositionsDecide` | srcs/zone_utils.c:106-118 | a list that passes the flag is ascending if and only if the skipped positions are in order |
| `ZoneSort.FlagMissesADescent` | srcs/zone_utils.c:106-118 | the list 1, 2, 4, 3 passes the check, has a skipped position out of order, and is returned unsorted |
| `ZoneSort.PushedListIsSorted` | srcs/zone_utils.c:127-129 | an ascending list with one zone pushed to its front is always sorted |
| `ZoneSort.ZoneLinks.MergeZoneLists` | srcs/zone_utils.c:69-92 | the merge in memory links up the merged sequence and touches no other link |
| `ZoneSort.ZoneLinks.Divide` | srcs/zone_utils.c:101-118 | the dividing loop finds the middle and computes the flag as specified |
| `ZoneSort.ZoneLinks.DivideAndSortList` | srcs/zone_utils.c:96-124 | the recursive sort in memory terminates and computes the specified sequence |
| `Words.LoadThenStore` | libft/ft_memcpy.c:44-48 | a word copy copies eight bytes |
| `Words.WordsDiffer` | libft/ft_memcmp.c:54-61 | two words are equal if and only if their bytes are |
| `Words.ZeroByteTest` | libft/ft_strlen.c:38-45 | the test on w - LOMAGIC, not w and HIMAGIC holds if and only if some byte of the word is 0 |
| `Words.ByteTest` | libft/ft_memchr.c:52-59 | memchr's word test holds if and only if some byte of the word is the wanted one |
| `Words.StampBytes` | libft/ft_memset.c:42-45 | the shifted copies of a byte make the word of eight such bytes |
| `MemoryRoutines.MemRestAligns` | libft/ft_memutils.c:16-19 | ft_memrest is the distance to the next word boundary |
| `MemoryRoutines.LengthTests` | libft/ft_memcpy.c:44-64 | the masks on the length test for 8 and for 32 bytes |
| `MemoryRoutines.MovedOn` | libft/ft_memcpy.c:29-53 | a forward copy made in two pieces equals one copy from a snapshot, when no unread byte is overwritten |
| `MemoryRoutines.FastMemcpy` | libft/ft_memcpy.c:29-53 | the word copy equals copying a snapshot |
| `MemoryRoutines.Memcpy` | libft/ft_memcpy.c:55-75 | memcpy equals copying a snapshot whenever the destination does not start inside the source behind its start |
| `MemoryRoutines.Memmove` | libft/ft_memmove.c:16-36 | memmove equals copying a snapshot for every pair of ranges, however they overlap |
| `MemoryRoutines.Memset` | libft/ft_memset.c:33-54 | the word-wise fill sets exactly the range |
| `MemoryRoutines.FastMemchr` | libft/ft_memchr.c:37-64 | the fast search finds the first occurrence, from any alignment, and a match in the prefix ends it |
| `MemoryRoutines.Memchr` | libft/ft_memchr.c:66-83 | memchr returns the first occurrence, or nothing if there is none |
| `MemoryRoutines.Strlen` | libft/ft_strlen.c:30-49 | strlen is the index of the first 0 byte, or reads a word that is not all in memory, exactly by where the words lie |
| `MemoryRoutines.StrlenOverreads` | libft/ft_strlen.c:36-42 | in a memory of whole words strlen overreads if and only if the terminator comes before the first word boundary and within the last seven bytes of memory |
| `MemoryRoutines.OverreadAtTheEnd` | libft/ft_strlen.c:36-42 | a terminator in the last byte of memory, one byte after the start, makes strlen read past the end |
| `MemoryRoutines.Strnlen` | libft/ft_strlen.c:64-68 | strnlen is that index, capped |
| `MemoryRoutines.FastMemcmp` | libft/ft_memcmp.c:40-69 | the word-wise comparison equals the byte-wise one |
| `MemoryRoutines.Memcmp` | libft/ft_memcmp.c:71-89 | memcmp is the difference of the first bytes that differ, as unsigned characters, or 0 |
| `HistoryModel.AppendFits` | srcs/history.c:134-156 | appending the item and the diverted items never overruns the array, and loses none; the item comes before those diverted, and a diverted one after them |
| `HistoryModel.StepKeepsInv` | srcs/history.c:31-163 | every critical section keeps n_items within capacity, n_temp within 10, at most one extension, and every item in exactly one place |
| `HistoryModel.StartInv` | srcs/history.c:17-20 | the book and its accounts are in order before the first call |
| `HistoryModel.RunKeepsInv` | srcs/history.c:31-163 | the same over every interleaving of take_history calls |
| `HistoryModel.DropsExactlyWhenFull` | srcs/history.c:130-143 | an item is dropped if and only if the temporary buffer is full or the allocation for the extension has failed |
| `HistoryModel.LogOnlyGrows` | srcs/history.c:55-60 | what is in the log stays in place over every run, across extensions |
| `HistoryModel.LogKeepsOrder` | srcs/history.c:118-163 | over every interleaving the log, then the item of the call in mid-extension, then the temporary buffer are the items not given up, in the order in which their calls first took the lock |
| `HistoryModel.GrowsByDoubling` | srcs/history.c:37-60 | the array changes only when it is full, to 64 items or twice its size, with the log kept |
| `HistoryModel.NothingLost` | srcs/history.c:118-163 | with nobody inside take_history, the submitted items are those held and those dropped |
| `HistoryModel.FailureLeavesFlag` | srcs/history.c:43-52 | a failed extension leaves in_extend set with nobody to clear it |
| `HistoryModel.NothingLoggedAfterFailure` | srcs/history.c:33-36 | after that, in every run, the log takes no further item |
| `HistoryClass.HistoryBook.AppendItem` | srcs/history.c:134-156 | the critical section in place equals the specified append, so it writes the item first and then the diverted ones in order |
| `HistoryClass.HistoryBook.Enter` | srcs/history.c:31-47 | the first critical section decides on an extension, or appends |
| `HistoryClass.HistoryBook.Install` | srcs/history.c:53-64 | the second critical section copies the log into the new array and hands back the old one |
| `HistoryClass.HistoryBook.Finish` | srcs/history.c:66-70 | the last critical section clears the flag and appends |
| `LockingInvariant.OtherPcStays` | srcs/lock.c:35-132 | nothing a thread knows is changed by a step that respects the locks of others |
| `LockingSteps.ArenaLocks` | srcs/lock.c:35-61 | taking a free subarena lock keeps the protocol invariant |
| `LockingSteps.ArenaUnlocks` | srcs/lock.c:106-118 | releasing a subarena lock keeps the protocol invariant |
| `LockingSteps.ZoneLocks` | srcs/lock.c:63-89 | taking a free zone lock keeps the protocol invariant |
| `LockingSteps.ZoneUnlocks` | srcs/lock.c:120-132 | releasing a zone lock keeps the protocol invariant |
| `LockingSteps.ChunkMade` | srcs/actual_malloc.c:237-266 | an allocation in a locked zone, or unlocked in a fresh one, keeps the protocol invariant |
| `LockingSteps.ChunkFreed` | srcs/actual_free.c:71-88 | taking a chunk that the thread has in hand out of its locked zone keeps the protocol invariant; that free does so is LockingAccounts.FreePartBalances |
| `LockingSteps.Mapped` | srcs/zone_initialize.c:61-75 | mapping a zone under the subarena lock keeps the protocol invariant |
| `LockingSteps.Unlinked` | srcs/release.c:14-16 | unlinking a releasable zone keeps the protocol invariant |
| `LockingSteps.Unmapped` | srcs/release.c:18 | unmapping an unlinked zone, without its lock, keeps the protocol invariant |
| `LockingSteps.Installed` | srcs/history.c:54-66 | installing the new array passes the old one to the thread that will free it |
| `LockingTheorems.StepKeepsInv` | srcs/lock.c:35-132 | one step of any thread keeps the protocol invariant, whatever searches and mappings yield |
| `LockingTheorems.RunKeepsInv` | srcs/lock.c:35-132 | the protocol invariant holds after every interleaving of malloc, free, realloc, release_memory and take_history |
| `LockingTheorems.InitialInv` | srcs/lock.c:35-132 | the protocol invariant holds before the first call |
| `LockingTheorems.TouchesOnlyGuarded` | srcs/actual_malloc.c:237-266 | a thread touches zone fields only with the zone lock, or with the subarena lock while the zone is empty and out of reach; zone links only with the subarena lock; and only of mapped zones |
| `LockingTheorems.NoRace` | srcs/actual_malloc.c:249-251 | no two threads touch the same zone, link, list head or book at once, not even to read: reading next without the zone lock is safe |
| `LockingTheorems.StepChangesOnlyTouched` | srcs/release.c:3-26 | no step changes a zone, a link, a list or the book that it is not counted as touching |
| `LockingTheorems.NoDanglingLock` | srcs/actual_free.c:71-88 | every lock a thread is about to take belongs to a mapped zone or an existing subarena |
| `LockingTheorems.UnmapsOnlyEmpty` | srcs/release.c:10-18 | when a zone is unmapped it has no live chunk, its lock is free, and nobody is on the way to it |
| `LockingTheorems.StepLives` | srcs/release.c:3-26 | a live chunk stays live over every step of a thread that does not have it in hand |
| `LockingTheorems.RunLeavesToApplication` | srcs/release.c:3-38 | a chunk the application holds stays live and its own over every run in which nobody is asked to free or move it |
| `LockingTheorems.LockOrder` | srcs/lock.c:35-132 | a thread that waits for a lock owns no zone and not the history lock, and owns a subarena only while release_memory waits for a zone of that subarena |
| `LockingTheorems.NoDeadlock` | srcs/history.c:46-66 | for every thread inside the allocator, a thread that can take its next step is itself, or owns the lock it waits for, or owns the lock that owner waits for |
| `LockingTheorems.AllReturned` | srcs/actual_malloc.c:296-309 | when every call has returned, every lock is free |
| `LockingTheorems.EveryRunIsSafe` | srcs/lock.c:35-132 | from the start, in every interleaving, there is no race and no bad pointer, and every thread inside is led to a ready one by at most two owners |
| `LockingAccounts.MallocBalances` | srcs/actual_malloc.c:281-314 | a step of malloc makes no live chunk but into the hands of its thread, and returns to the application just what it has in hand at the end; realloc goes on to free the old chunk, or returns it if malloc failed |
| `LockingAccounts.FreePartBalances` | srcs/actual_free.c:71-148 | a step of free drops a chunk from the hands of its thread only by making it no longer live, and at the end of realloc returns the chunk kept in hand |
| `LockingAccounts.StepAccounts` | srcs/actual_realloc.c:17-66 | one step of any thread keeps the record: the chunks returned and not handed back are the live ones that no thread and not the book holds |
| `LockingAccounts.EveryChunkHasOneHolder` | srcs/actual_free.c:71-148 | from the start, in every interleaving, a chunk is live if and only if it was returned to the application and not handed back, or a thread has it in hand, or it is the array of the book, and it has just one of these holders |
| `LockingAccounts.NothingLeaks` | srcs/actual_free.c:71-148 | when every call has returned, the live chunks are those returned and not handed back, and the one array of the book |
| `LockingAccounts.EmptyZonesAreUnmapped` | srcs/release.c:10-18 | a zone that release_memory finds without a chunk is unmapped four of its own steps later, whatever the other threads do in between |
| `LockingTours.MapsOnlyAfterTheWalk` | srcs/actual_malloc.c:237-258 | in every interleaving, malloc about to map a zone has passed over every zone on the list, in order, each locked by others or searched in vain |
| `LockingTours.NullOnlyIfNothingIsToBeHad` | srcs/actual_malloc.c:254-266 | malloc gives up only if a mapping was denied, and for a small size only after the walk along the whole list |
| `LockingTours.WaitsOnlyIfAllAreLocked` | srcs/actual_malloc.c:5-29 | malloc waits for a lock only at the first subarena, and with several subarenas only after each was found locked |
| `LockingTours.ReleaseLeavesZonesInUse` | srcs/release.c:3-26 | when release_memory is through with a subarena, it has found a chunk in use in every zone still on the list |
| `LockingProgress.StepNears` | srcs/actual_malloc.c:237-314 | each step of a thread inside malloc, free, realloc, release_memory or take_history lowers a measure of what it has still to do, list walks included |
| `LockingProgress.OthersLeaveWork` | srcs/lock.c:35-132 | no step of another thread raises that measure: a list under a lock keeps its length |
| `LockingProgress.CallsReturn` | srcs/lock.c:35-132 | in every infinite interleaving each call returns, or from some point on its thread takes no step, being not scheduled or waiting for a lock: no call runs forever |
| `HeapProofs.BlockInside` | srcs/zone_initialize.c:32-48 | the bytes of every block lie inside its mapping, behind the zone header and both bitmaps, or behind the LARGE header |
| `HeapProofs.LiveChunkInside` | srcs/zone_initialize.c:32-48 | a live chunk, header and body, lies inside its mapping and behind what the mapping keeps for itself |
| `HeapProofs.BlocksApart` | srcs/zone_utils.c:42-45 | different blocks have disjoint bytes |
| `HeapProofs.LiveChunk` | srcs/actual_free.c:166-174 | the header of a live chunk counts its body, and its flags say truly whether it is LARGE |
| `HeapProofs.LiveChunksApart` | srcs/actual_malloc.c:237-266 | distinct live chunks, headers included, occupy disjoint ranges of addresses |
| `HeapProofs.FreeFindsZone` | srcs/zone_utils.c:49-67 | for every live TINY or SMALL chunk, the size in its header and its address lead free to its zone and its block |
| `HeapOps.FirstServingIs` | srcs/actual_malloc.c:239-253 | the walk along a zone list stops at the first zone that is not locked by others and can serve, or finds that none can |
| `HeapOps.NewZoneIs` | srcs/memory_alloc.c:25-53 | a zone mapped afresh is aligned and overlaps no other mapping |
| `HeapOps.PushZoneKeeps` | srcs/actual_malloc.c:254-262 | pushing a fresh zone keeps the invariant and shows no caller anything |
| `HeapOps.MallocFromZonesKeeps` | srcs/actual_malloc.c:237-266 | allocation from a zone list keeps the invariant and adds one chunk of the requested blocks, or nothing; which zone it takes is HeapExact.MallocChooses |
| `HeapOps.MallocLargeKeeps` | srcs/actual_malloc.c:98-109 | allocation of a LARGE chunk keeps the invariant, with its in-use list ascending and exact, and adds one chunk, or nothing |
| `HeapOps.MallocKeeps` | srcs/actual_malloc.c:281-314 | malloc keeps the invariant; a pointer is to one new chunk with room for the request and every other chunk is as it was; where it returns NULL nothing has changed for the callers; what memory it takes is HeapExact.MallocExactly |
| `HeapOps.FreeZoneKeeps` | srcs/actual_free.c:71-88 | freeing in a zone keeps the invariant and removes that chunk alone |
| `HeapOps.FreeLargeKeeps` | srcs/actual_free.c:90-148 | freeing a LARGE chunk keeps the invariant and removes that chunk alone |
| `HeapOps.FreeKeeps` | srcs/actual_free.c:150-164 | free of a chunk in use takes the right path from its header and frees exactly that chunk |
| `HeapRealloc.WriteKeeps` | srcs/actual_realloc.c:3-12 | a write to a block of a body changes that block alone |
| `HeapRealloc.CopyKeeps` | srcs/actual_realloc.c:3-34 | the copying loop puts the copied blocks in place, keeps the rest of the target and every other chunk |
| `HeapRealloc.RelocateKeeps` | srcs/actual_realloc.c:17-39 | relocation moves the common blocks to a chunk of just the requested blocks and frees the old one; it returns what malloc returns, and where that is NULL nothing changes |
| `HeapRealloc.ReallocKeeps` | srcs/actual_realloc.c:69-121 | on every arm the result has room for n and keeps the first min(old, new) blocks, and no other chunk changes; where it returns NULL the old chunk is live and unchanged; which arm it takes is HeapExact.ReallocExactly |
| `HeapRealloc.BigPlanExactly` | srcs/actual_realloc.c:80-120 | a LARGE chunk stays as it is if and only if the request is LARGE and fits; otherwise realloc relocates, or refuses a size that cannot be expressed |
| `HeapRealloc.ReleaseKeeps` | srcs/release.c:3-26 | release_memory unmaps exactly the zones without a chunk in use, and no caller can tell |
| `HeapRealloc.MallocFailsExactly` | srcs/actual_malloc.c:237-314 | malloc returns NULL if and only if the size cannot be expressed, or no scribbler byte is set and no unlocked zone of the list serves and no mapping is to be had |
| `HeapRealloc.MallocCrashesExactly` | srcs/actual_malloc.c:302-313 | malloc crashes if and only if a scribbler byte is set, the size can be expressed, no mapping is to be had and no unlocked zone of the list serves: then the fill reads the header before NULL |
| `HeapRealloc.FirstByteCrashes` | srcs/actual_malloc.c:312 | with any scribbler byte set, malloc(1) on the empty heap crashes when mmap fails |
| `HeapRealloc.MallocServes` | srcs/actual_malloc.c:254-265 | with a mapping to be had, malloc refuses only the sizes that cannot be expressed |
| `HeapExact.MallocChooses` | srcs/actual_malloc.c:237-266 | for a TINY or SMALL size malloc takes the first zone of the list that is unlocked and has a fitting chunk, with no mapping made and both lists as they were; only if there is none it maps one zone, at the front of its list, and uses its first block |
| `HeapExact.LargeMapsOnce` | srcs/actual_malloc.c:33-109 | for a LARGE size malloc makes one mapping, the least page multiple that holds 48 bytes and the blocks, and changes no zone and no list of zones |
| `HeapExact.MallocExactly` | srcs/actual_malloc.c:281-314 | all of this for every size: sizes above 2^64 - 32 are refused with nothing changed |
| `HeapExact.MallocFills` | srcs/debug.c:57-69 | a new body holds the scribbler byte throughout; without a scribbler a LARGE body holds zeros |
| `HeapExact.FreeTouchesOne` | srcs/actual_free.c:71-148 | free changes one zone and no list, and leaves free_prev of that zone at the free chunk over the freed blocks; or it unmaps that one LARGE chunk |
| `HeapExact.ReallocExactly` | srcs/actual_realloc.c:69-121 | realloc returns the pointer it was given, whatever mmap would give, if and only if the request is of the true class of the chunk, fits, and in a zone the chunk is below the largest size of its class; a LARGE chunk is then untouched; a zone chunk loses its tail if that can be a free chunk of the class; otherwise it moves to what malloc gives for just the requested blocks |
| `HeapExact.ReleaseKeepsOrder` | srcs/release.c:3-26 | the zones that stay on a list keep their order |
| `Alignment.AllocSizeChecks` | srcs/actual_malloc.c:332-349 | memalign asks malloc for a size if and only if the alignment is a power of two and size + alignment is at most 2^64 - 32; the size is then size + alignment rounded up to blocks, and one block for the pseudo header |
| `Alignment.PseudoIsAligned` | srcs/actual_malloc.c:360-368 | the pseudo header lies on a block boundary behind the real header, and the pointer behind it is aligned |
| `Alignment.PseudoIsFirst` | srcs/actual_malloc.c:360-366 | no pointer between the real header and the pseudo header is aligned |
| `Alignment.NominalBodyFits` | srcs/actual_malloc.c:343-370 | wherever the pseudo header falls, it and the nominal body fit in the real body, and the nominal body covers the size |
| `Alignment.PseudoWritten` | srcs/memory_utils.c:52-65 | through the pseudo header, addr_to_actual_header recovers the real one |
| `Alignment.MemalignKeeps` | srcs/actual_malloc.c:332-373 | memalign adds one chunk; its pointer is the chunk's own if that is aligned and otherwise the first aligned one, with a pseudo header that counts just the blocks of the size; its nominal range lies in the real body, behind the real header, and covers the size; where it returns NULL nothing has changed |
| `Alignment.MemalignThenFree` | srcs/actual_free.c:150-164 | free of a pointer from memalign frees the whole chunk behind it and nothing else |
| `HeapRuns.StepKeeps` | srcs/actual_malloc.c:281-314 | every public operation that returns keeps the invariant and every chunk it is not asked to free, move or write |
| `HeapRuns.RunKeepsHeapInv` | srcs/actual_malloc.c:281-314 | the invariant of the whole allocator holds after any run that has not crashed |
| `HeapRuns.RunKeepsChunk` | srcs/actual_realloc.c:69-121 | a chunk that is not freed, resized or written keeps its place and contents over any run of malloc, free, realloc, memalign, release_memory and writes |
| `HeapRuns.StepKeepsBlock` | srcs/actual_realloc.c:69-121 | an operation that neither frees nor moves a chunk, and does not write its block k, keeps the chunk live, as large, and block k as it was |
| `HeapRuns.RunKeepsBlock` | srcs/actual_realloc.c:69-121 | the same for block k of a chunk over any run, whatever is written to the other blocks of the chunk |
| `HeapRuns.MemalignPointerLasts` | srcs/memory_utils.c:52-65 | a pointer from memalign leads to its chunk over any run that neither frees nor moves the chunk nor writes the pseudo header, however the nominal body is used |
| `HeapRuns.StepCrashesExactly` | srcs/actual_malloc.c:302-313 | malloc, a realloc that relocates and memalign crash if and only if the request they make of malloc is one for which it fills NULL; nothing else crashes |
| `HeapRuns.NoScribblerNoCrash` | srcs/debug.c:57-60 | without a scribbler byte no run crashes |
| `HeapRuns.ReachableHeapsAreSound` | srcs/zone_utils.c:49-67 | in every reachable state, free finds the zone of every zone chunk, live chunks do not overlap, and each lies inside its mapping, behind the zone header and both bitmaps or behind the LARGE header |
| `HeapClass.Allocator.AllocateFromZones` | srcs/actual_malloc.c:237-253 | the loop along the zone list allocates from the first zone that serves, and otherwise changes nothing |
| `HeapClass.Allocator.Malloc` | srcs/actual_malloc.c:281-314 | malloc on the fields keeps the invariant, takes the first zone that serves or one new mapping only where none does, adds one chunk or, where it returns NULL, nothing, and crashes exactly where NULL is filled |
| `HeapClass.Allocator.Free` | srcs/actual_free.c:150-164 | free on the fields keeps the invariant, frees the chunk behind the pointer, and equals the specification |
| `HeapClass.Allocator.CopyBlocks` | srcs/actual_realloc.c:3-34 | the copying loop, which reads while it writes, equals copying the contents the old chunk had at first |
| `HeapClass.Allocator.Relocate` | srcs/actual_realloc.c:17-39 | malloc, copy and free in place equal the specified relocation, stopping where malloc returns NULL or crashes |
| `HeapClass.Allocator.ShrinkInPlace` | srcs/actual_realloc.c:43-66 | a shrink within the limits of the class keeps the invariant, leaves the first blocks of the body as they were, and changes no other chunk |
| `HeapClass.Allocator.Realloc` | srcs/actual_realloc.c:69-121 | realloc on the fields keeps the invariant, stays in place, shrinks or moves exactly as HeapExact.ReallocExactly says, keeps the contents and every other chunk, and changes nothing where it returns NULL |
| `HeapClass.Allocator.AlignedMalloc` | srcs/actual_malloc.c:332-373 | memalign on the fields yields the first aligned pointer into one new chunk, changes nothing where it returns NULL, and crashes exactly where malloc fills NULL |
| `HeapClass.Allocator.ReleaseFrom` | srcs/release.c:3-26 | the loop unlinks and unmaps exactly the entirely free zones of a list and keeps the order of the others |
| `HeapClass.Allocator.ReleaseMemory` | srcs/release.c:46-54 | one round of the loop of release_memory, on the fields of one arena, keeps the invariant and shows no caller anything |
| `HeapClass.ReleaseAll` | srcs/release.c:40-55 | the loop over the arenas releases each one, keeps every invariant, and shows no caller anything |

## Left out

- pthread, mmap and munmap failures after a lock was initialised, getenv, file descriptors, constructor and destructor: calls into the system; mutexes are atomic acquire and release steps, and single-thread mode, which skips them, is not modelled.
- realloc of a pointer from memalign: srcs/actual_realloc.c:79 reads the pseudo header as if it were real, so shrinking writes outside the tiling. The realloc properties are about chunks with a real header.
- Bytes within a block: bodies, copies and fills are modelled in 16-byte blocks, which is the granularity at which realloc copies. calloc is modelled up to the size it asks for; its zeroing is not.
- NULL arguments, for which free does nothing and realloc is malloc, and malloc_usable_size, whose value `HeapProofs.LiveChunk` gives.
- errno, posix_memalign and aligned_alloc, which add argument checks in front of memalign, and the assertions of sort_zone_list.
- Several arenas: `HeapClass.Allocator` is one arena, its zones values inside a map; that one zone in place refines such a value is `ZoneClass.Zone`. The locking model has any number of subarenas. In it realloc that stays in place without shrinking takes no lock and is no step.
- LockingTheorems.NoDeadlock: is about blocking. `LockingProgress.CallsReturn` adds that no call runs forever, but neither promises that the scheduler or a lock is fair.
- HistoryModel.RunKeepsInv: the printing of items to the on-disk log is not modelled.
- srcs/visualize.c, srcs/debug.c except the fill, srcs/printf.c, srcs/assert.c: output and logging.
- srcs/malloc.c, srcs/realm_initialize.c, srcs/arena_initialize.c: wrappers and one-time set-up.
- The rest of libft (character tests, lists, splitting, conversions, output): easy members only.
