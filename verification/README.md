# Viengoos: verified models of six components

This project models six self-contained components of the Viengoos / Hurd-NG tree in Dafny 4.11 and proves what each
of them is for. `dafny verify dfyconfig.toml` checks everything; no proof rests on an assumption.

| component | source | files |
|---|---|---|
| boundary-tag allocator (dlmalloc 2.7.2, i386 build of `deva/malloc-wrap.c`) | `deva/malloc.c` | `Word32`, `MallocSizes`, `Alignment`, `BinMap`, `ChunkMemory`, `Chunks`, `Heap*`, `Blocks`, `Malloc`, `MallocRun` |
| streaming MD5 | `libc-parts/md5.c` | `Md5Schedule`, `Md5Spec`, `Md5`, `Md5Stream` |
| boot region table | `laden/loader.c` | `BootRegions` |
| futex mutex and recursive mutex | `hurd/mutex.h`, `hurd/rmutex.h` | `FutexMutex`, `RecursiveMutex` |
| paged ELF loader and bitmap allocator | `libc-parts/loader.c`, `libbitarray/bit-array.h` | `ElfLoader`, `BitArray` |
| LRU object cache | `benchmarks/cache.c` | `LruOrder`, `LruCache` |

## How the allocator is modelled

`Malloc.Allocator` is a class whose fields are those of `malloc_state` plus raw word-addressed memory `m`. Its methods
read and write headers, footers and list pointers in `m` exactly where the C code does. A ghost `Heap` says what the
memory means: the arena (which chunk starts where, its size, its role and what its tags say), the contents of every
bin and fastbin, the blocks in the program's hands, and the areas obtained from mmap. Two predicates tie the layers:

- `Inv` (HeapState): chunks are disjoint and tile each segment, tags agree with neighbours, no free chunk borders
  another one or top, every bin holds distinct free chunks of its own index in descending size, every fastbin chunks
  of its one size, and every block of the program is a used chunk or a mapping of its own.
- `Rep` (HeapState): memory holds exactly these heads, feet, fenceposts and doubly or singly linked lists.

`Ready` adds what holds between two steps: every free chunk is in a bin, every used chunk belongs to the program, the
flag bits of `max_fast` and the bin bitmap are right, and `sbrked_mem` equals the sum of all chunk sizes. `Valid` also
covers the state before the first call. `UserSame` says that no word of a given set of blocks differs. Every public
method promises `Valid`, how the set of blocks changes, and `UserSame` for all other blocks; `MallocRun.Run` turns this
into a statement about whole programs.

Which chunk serves a request is stated in `HeapPolicy`, about the heap that malloc searches. For a small request this is
the heap as it is. For a large one, and for a small one that found nothing at first, it is the heap with its fastbins
consolidated: the same blocks, mappings, segments, fenceposts and free bytes, no fastbin chunk, and no two free
neighbours (`Tidied`). That heap is unique up to bin numbers (`HeapUnique.MergedIsUnique`,
`HeapPolicy.SearchedHeapUnique`), so "best fit", "top only if nothing fits" and "failure only if nothing fits" speak of
one definite arrangement of chunks. `System` says what mmap had to do with the outcome: a request is mapped, grown or
refused exactly as the range check, the 32-bit rounding of the length and the next answer of mmap decide.

Choices made in the model:

- The two fenceposts at the end of a retired segment are one 16-byte `Fence` chunk; a retired top of 24 bytes leaves
  an 8-byte `Dead` chunk in front of it, which nothing ever touches again.
- Answers of mmap are a list given at construction. An answer is used if it is a page-aligned area that overlaps no
  area still mapped; otherwise the call fails. The contents of fresh memory are arbitrary.
- Neighbours are taken off their lists before the merged chunk's tags are written, where the C code interleaves these
  writes; the same words get the same values. The split of the last remainder unlinks the victim and links the
  remainder, where the C code overwrites both list pointers at once.
- `free` is called `FreeBlock`. The program's request size is a ghost argument where the C code passes a padded size.

## What is false, and when it is true

- No wake-up is lost by either mutex exactly if at most two threads use it (`FutexMutex.WakeupsKept`,
  `RecursiveMutex.WakeupsKept`, which covers sleepers on the count and on the inner futex): with three, a woken thread
  takes the mutex without the waiters mark, and the second sleeper stays asleep while the mutex is free
  (`OneStranded`).
- memalign: the loop that rounds an alignment up ends exactly for alignments up to 2^31 (`Alignment.RoundingEnds`), and
  the padded request has room exactly if the 32-bit sum does not wrap (`Alignment.PaddingHolds`).
- ELF loader: the page loop ends exactly if the 32-bit sum of segment address and size is at most 0xFFFFF000. For a
  segment that does not wrap this means that it ends at or below 0xFFFFF000, or at exactly 2^32, where the sum is 0 and
  the loop loads nothing (`ElfLoader.PageLoopEnds`).
- Boot region search: a restart raises the candidate address exactly if the end of the region in the way is below
  0xFFFFF000 (`BootRegions.RestartAdvances`).
- Boot region search: it can miss a place. A conventional descriptor of exactly the region's size is never tried,
  because its size is compared as the difference of two inclusive ends (`BootRegions.ExactSizePassedOver`). A movable
  region is refused exactly if every place for it is the low end of such a descriptor (`BootRegions.SearchFailsExactly`,
  `BootRegions.Loader.Relocate`).
- `mem_check` can pass a region that clashes with non-conventional memory, if a conventional descriptor is listed after
  the non-conventional one (`BootRegions.ReservedUnnoticed`). It can be trusted exactly for memory maps without such a
  hole (`BootRegions.TrustExactly`), in particular if no conventional descriptor follows a non-conventional one that it
  meets (`BootRegions.OrderedIsTrustworthy`).
- `list_unlink` does not empty a one-element list, since the element is its own successor, contrary to its comment
  (benchmarks/cache.c:791). Both callers are unaffected: `LruCache.Cache.ListUnlink` states the actual effect.

## Model

| member | source | states |
|---|---|---|
| `MallocSizes.Request2SizeIsLeast` | deva/malloc.c:1974-1992 | the padded size is the least multiple of 8 that is at least 16 and holds the request plus a header word, and adding MINSIZE cannot wrap for an accepted request |
| `MallocSizes.Request2SizeReentry` | deva/malloc.c:2903 | padding nb - 7 gives nb again, so re-entering malloc asks for the same chunk size |
| `MallocSizes.HighestBitBranchFreeIsFloorLog2` | deva/malloc.c:2188-2200 | the branch-free bit search on 32-bit words equals the floor of the binary logarithm, which the bsrl instruction gives, for every 16-bit nonzero argument |
| `MallocSizes.LargebinEitherWay` | deva/malloc.c:2177-2204 | builds with and without bsrl give every large size the same bin |
| `MallocSizes.FloorLog2Brackets` | deva/malloc.c:2173 | the recursive logarithm used as reference is the exponent of the highest power of two not above its argument |
| `MallocSizes.LargebinSlice` | deva/malloc.c:2171-2205 | the bin of a large size is fixed by its logarithm and its next two bits |
| `MallocSizes.LargebinRange` | deva/malloc.c:2171-2205 | large sizes land in bins 32 to 95 |
| `MallocSizes.LargebinMonotone` | deva/malloc.c:2171-2205 | larger sizes never get a smaller bin index |
| `MallocSizes.BinIndexMonotone` | deva/malloc.c:2207-2208 | the same across small and large sizes |
| `MallocSizes.BinIndexRange` | deva/malloc.c:2160-2208 | every chunk size has a bin from 2 to 95, below 32 exactly for small sizes |
| `MallocSizes.RoundPageBounds` | deva/malloc.c:2926-2929 | rounding up to pages never shortens a request, and gives 0 exactly if the sum wraps |
| `BinMap.MarkMarks` | deva/malloc.c:2283-2288 | mark_bin sets exactly the bit of that bin |
| `BinMap.NextBit` | deva/malloc.c:3619-3623 | the shifting loop stops at the lowest set bit at or above the start |
| `BinMap.SkipBlocks` | deva/malloc.c:3608-3616 | skipping map words passes over empty bins only and stops at the trailing word |
| `BinMap.FindBin` | deva/malloc.c:3599-3633 | with "a clear bit means an empty bin", the bitmap search ends, clears only bits of empty bins, and returns the first non-empty bin above idx, or none if there is none |
| `ChunkMemory.UnlinkRep` | deva/malloc.c:2132-2137 | the two pointer writes of unlink remove exactly that node from the circular list |
| `ChunkMemory.InsertRep` | deva/malloc.c:3544-3547 | the four pointer writes insert exactly that node at that place |
| `ChunkMemory.FastPopRep` | deva/malloc.c:3414-3415 | taking the head of a fastbin leaves the rest of the list |
| `ChunkMemory.FastPushRep` | deva/malloc.c:3757-3758 | pushing on a fastbin puts the chunk in front |
| `HeapMerge.ReleaseInv` | deva/malloc.c:3768-3807 | merging a used chunk with its free neighbours keeps the heap invariant |
| `HeapMerge.ReleaseRep` | deva/malloc.c:3782-3804 | and the header and footer writes represent the merged heap and touch no block |
| `HeapMerge.ReleaseTopInv` | deva/malloc.c:3814-3819 | merging into top keeps the invariant |
| `HeapGrow.GrowInv` | deva/malloc.c:3205-3249 | a new top plus the fenceposts that retire the old one keep the invariant |
| `HeapGrow.GrowRep` | deva/malloc.c:3206-3238 | and the tag writes represent it |
| `HeapSum.ReleaseSums` | deva/malloc.c:3771-3788 | merging moves bytes between chunks but keeps their sum; the released chunk's bytes become free |
| `HeapTheory.FirstFitIsBest` | deva/malloc.c:3559-3588 | scanning the request's own sorted bin from its small end, the first chunk that fits is the smallest free chunk of the whole heap that fits |
| `HeapTheory.LastIsBest` | deva/malloc.c:3590-3672 | if nothing in the own bin fits, the last chunk of the first non-empty larger bin is the smallest free chunk of the whole heap that fits |
| `HeapTheory.ExactIsBest` | deva/malloc.c:3421-3442 | an exact small fit is a best fit |
| `HeapTheory.BlockTags` | deva/malloc.c:3744-3765 | the size and mapped bit read back from a block's header tell whether it is a mapping, and mappings are never small enough for a fastbin |
| `HeapFacts.SegmentsTiled` | deva/malloc.c:2551-2599 | every byte of every segment belongs to exactly one chunk |
| `HeapFacts.FreeSpaceMerged` | deva/malloc.c:2601-2639 | a free chunk's successor is neither free nor top, has its in-use bit clear and repeats the size in the footer |
| `HeapFacts.FreeInOneBin` | deva/malloc.c:2739-2851 | every free chunk sits at one position of one bin |
| `HeapUnique.MergedIsUnique` | deva/malloc.c:3909-3973 | two heaps without fastbin chunks that hold the same blocks, mappings, segments and fenceposts have the same chunks: there is only one way to merge all free space |
| `HeapPolicy.SearchedHeapUnique` | deva/malloc.c:3397-3702 | whatever two searches for a request from the same heap choose, they choose from the same arrangement of chunks |
| `HeapPolicy.BestIsDetermined` | deva/malloc.c:3559-3672 | the size of a best fit is determined by the heap before the call and the request alone |
| `HeapPolicy.OversizeFitsNowhere` | deva/malloc.c:1974-1976 | no heap has a chunk for a size near 2^32, and top is always too small for it |
| `HeapPolicy.LargestFail` | deva/malloc.c:4065 | the largest padded sizes, which the range check rejects when realloc passes nb - 7 on, cannot be served anyway: nothing fits and both mmap lengths wrap |
| `Blocks.BlocksApart` | deva/malloc.c:1952-1953 | two blocks of the program never share a word |
| `Blocks.UserWrite` | deva/malloc.c:1952-1953 | the program may overwrite any word of its own block: no allocator structure and no other block is affected |
| `Malloc.Allocator.Unlink` | deva/malloc.c:2132-2137 | list, arena and memory after unlink |
| `Malloc.Allocator.Coalesce` | deva/malloc.c:3768-3819 | consolidates backward and forward or into top; all used blocks keep their words, free bytes grow by the chunk's size |
| `Malloc.Allocator.DrainFastbin` | deva/malloc.c:3928-3969 | one fastbin is emptied, chunk by chunk, without losing a byte |
| `Malloc.Allocator.Consolidate` | deva/malloc.c:3909-3973 | ends with all fastbins empty and the flag clear, re-establishes the invariant, conserves free bytes, keeps all blocks |
| `Malloc.Allocator.FreeChunk` | deva/malloc.c:3744-3845 | the chunk goes to its fastbin or is merged; free bytes grow by exactly its size |
| `Malloc.Allocator.TryFastbin` | deva/malloc.c:3412-3419 | a fastbin hit has exactly the size asked for; without one, no fastbin chunk has it |
| `Malloc.Allocator.TrySmallbin` | deva/malloc.c:3429-3442 | an exact small fit, or proof that the bin is empty |
| `Malloc.Allocator.FindPlace` | deva/malloc.c:3515-3541 | the position that keeps a large bin sorted |
| `Malloc.Allocator.PlaceInBin` | deva/malloc.c:3513-3547 | the chunk is filed under its own index in sorted order and the bin is marked |
| `Malloc.Allocator.SplitLastRemainder` | deva/malloc.c:3486-3498 | the only exception to best fit |
| `Malloc.Allocator.DrainUnsorted` | deva/malloc.c:3469-3548 | the queue ends empty with every chunk filed, unless an exact fit or the last remainder served the request |
| `Malloc.Allocator.TryOwnBin` | deva/malloc.c:3559-3588 | the scan of a large request's own bin takes the smallest that fits, or none fits there |
| `Malloc.Allocator.TryLargerBins` | deva/malloc.c:3599-3672 | the bitmap search takes the smallest free chunk that fits, or none fits anywhere |
| `Malloc.Allocator.UseTop` | deva/malloc.c:3690-3702 | top is split exactly if it is large enough |
| `Malloc.Allocator.MallocChunk` | deva/malloc.c:3402-3702 | which chunk serves a request, as a policy on the heap that is searched, or nothing there can |
| `Malloc.Allocator.MapDirectly` | deva/malloc.c:2916-2973 | a mapping of its own with room for the request, exactly if the length does not wrap and mmap gives the area |
| `Malloc.Allocator.ReplaceTop` | deva/malloc.c:3205-3249 | the new area becomes top and the rest of the old one is freed behind fenceposts |
| `Malloc.Allocator.GrowTop` | deva/malloc.c:3000-3251 | top can serve the request afterwards exactly if the length does not wrap and mmap gives the area, else nothing changes; all blocks keep their words and sbrked bytes stay the sum of chunk sizes |
| `Malloc.Allocator.SysMalloc` | deva/malloc.c:2900-3285 | consolidates and retries, else maps or grows, as the policy and the answers of mmap decide; the recursion ends because the fastchunks flag is cleared |
| `Malloc.Allocator.Retry` | deva/malloc.c:2901-2904 | a small request that found nothing is served from the consolidated heap, by the same policy |
| `Malloc.Allocator.MallocInner` | deva/malloc.c:3397-3707 | the whole of mALLOc on an initialized state, with the same policy |
| `Malloc.Allocator.InitState` | deva/malloc.c:2471-2502 | an empty heap whose bins are circular and whose top is the dummy |
| `Malloc.Allocator.constructor` | deva/malloc.c:2471-2502 | the zeroed static state |
| `Malloc.Allocator.Malloc` | deva/malloc.c:3362-3708 | one new aligned block with room for the request, less than MINSIZE bytes larger than the padded size unless mapped, disjoint from all others, or none; best fit in the searched heap except for fastbin hits and the last remainder; top only if nothing fits; the system only if top is too small as well; failure exactly if the size is out of range or, beyond that, mmap gives neither a mapping nor a new top |
| `Malloc.Allocator.FreeBlock` | deva/malloc.c:3715-3866 | exactly this block goes, all others keep their words, and its bytes are counted as free |
| `Malloc.Allocator.FreeMapped` | deva/malloc.c:3854-3864 | the mapping behind the block is returned to the system |
| `Malloc.Allocator.Finish` | deva/malloc.c:4120-4140 | an in-place resize keeps the block's words and frees a remainder that is large enough |
| `Malloc.Allocator.ReallocInPlace` | deva/malloc.c:4035-4039 | shrinking keeps address and words |
| `Malloc.Allocator.ReallocIntoTop` | deva/malloc.c:4044-4052 | growing into top keeps address and words |
| `Malloc.Allocator.ReallocIntoFree` | deva/malloc.c:4054-4061 | growing into a free successor keeps address and words |
| `Malloc.Allocator.ReallocJoin` | deva/malloc.c:4072-4078 | if the new chunk is the successor the two are glued without copying |
| `Malloc.Allocator.CopySmall` | deva/malloc.c:4095-4111 | the unrolled copy of 3, 5, 7 or 9 words copies them all |
| `Malloc.Allocator.ReallocMove` | deva/malloc.c:4063-4117 | allocate, glue or copy, free; on failure nothing changes and the searched heap and mmap had nothing |
| `Malloc.Allocator.ReallocChunk` | deva/malloc.c:4033-4141 | the choice among the four ways; a block that is large enough never moves |
| `Malloc.Allocator.ReallocMapped` | deva/malloc.c:4185-4196 | a mapping is kept while it is large enough, else copied and unmapped |
| `Malloc.Allocator.Realloc` | deva/malloc.c:3986-4205 | on every path the leading words up to the smaller of old usable size and new request are kept, and no other block changes; a block that is large enough stays; on failure nothing changes, and every accepted size fails only if neither the searched heap nor mmap could serve it |
| `Malloc.Allocator.AlignBlock` | deva/malloc.c:4259-4290 | an aligned spot with a leader of at least MINSIZE and a rest of at least nb always exists; the leader is freed |
| `Malloc.Allocator.GiveBackTail` | deva/malloc.c:4297-4306 | the spare tail is freed |
| `Malloc.Allocator.Memalign` | deva/malloc.c:4212-4310 | one new block on a multiple of the rounded alignment, with room for the request and at most MINSIZE bytes larger than the padded size unless mapped; failure only if neither the searched heap nor mmap could serve the padded request |
| `Malloc.AlignedGrantDivides` | deva/malloc.c:4292-4293 | divisibility in the usual sense |
| `Alignment.ClearLowestBit` | deva/malloc.c:4237 | x & (x - 1) is zero exactly for powers of two |
| `Alignment.RoundAlignment` | deva/malloc.c:4234-4241 | the working alignment is the least power of two at least MINSIZE and the alignment asked for |
| `Alignment.RoundedIsLeast` | deva/malloc.c:4236-4241 | no smaller power of two would do |
| `Alignment.RoundingEnds` | deva/malloc.c:4238-4239 | the 32-bit doubling loop ends exactly for alignments up to 2^31 |
| `Alignment.PaddingHolds` | deva/malloc.c:4253 | the padded request has room for nb exactly if the sum does not wrap |
| `Alignment.MaskRoundsDown` | deva/malloc.c:4269-4270 | masking with the negated alignment rounds down to a multiple |
| `Alignment.AlignedSpotFits` | deva/malloc.c:4261-4275 | the chosen spot is aligned and leaves between MINSIZE and alignment + 8 bytes in front |
| `Alignment.MappedSpotKept` | deva/malloc.c:4278-4283 | a mapping that slides to the spot stays larger than any fastbin chunk |
| `MallocRun.Step` | deva/malloc.c:3362-4310 | one operation of a program keeps every block's stored words and means what it says |
| `MallocRun.Run` | deva/malloc.c:3362-4310 | for every sequence of malloc, memalign, realloc, free and stores, and every sequence of mmap answers: the program's blocks are aligned, large enough, pairwise disjoint and hold exactly the words stored |
| `Md5Schedule.Rows1` | libc-parts/md5.c:365-381 | the constants written in round 1 are those of the tables of RFC 1321 |
| `Md5Schedule.Rows2` | libc-parts/md5.c:396-412 | the same for round 2, with the word order (5i + 1) mod 16 |
| `Md5Schedule.Rows3` | libc-parts/md5.c:414-430 | the same for round 3, with (3i + 5) mod 16 |
| `Md5Schedule.Rows4` | libc-parts/md5.c:432-448 | the same for round 4, with 7i mod 16 |
| `Md5Schedule.Round1` | libc-parts/md5.c:365-381 | the 16 unrolled operations are the first 16 steps of the standard |
| `Md5Schedule.Round2` | libc-parts/md5.c:396-412 | the next 16 |
| `Md5Schedule.Round3` | libc-parts/md5.c:414-430 | the next 16 |
| `Md5Schedule.Round4` | libc-parts/md5.c:432-448 | the last 16 |
| `Md5.MacrosAgree` | libc-parts/md5.c:294-301 | the optimized FF and FG compute the standard's F and G |
| `Md5.CyclicIsRotation` | libc-parts/md5.c:357 | two shifts make a rotation |
| `Md5.OperationAgrees` | libc-parts/md5.c:345-394 | the OP macros compute the standard's operation |
| `Md5.CompressBlock` | libc-parts/md5.c:330-455 | the loop body is the standard's block function |
| `Md5.CompressBlocks` | libc-parts/md5.c:307-462 | the loop folds it over all whole blocks |
| `Md5Spec.PaddingIsLeast` | libc-parts/md5.c:124-125 | the padding is the shortest that makes the length a multiple of 64 |
| `Md5Stream.CarriedCounts` | libc-parts/md5.c:324-326 | the two 32-bit halves count bytes modulo 2^64 |
| `Md5Stream.ShiftsAgree` | libc-parts/md5.c:128-130 | the two shifts and the bitwise or on 32-bit words compute the low and high word of the length in bits |
| `Md5Stream.LengthField` | libc-parts/md5.c:127-130 | these two words, written low-order byte first, are the 64-bit length in bits |
| `Md5Stream.PadIsPadding` | libc-parts/md5.c:124-125 | the pad length is the standard's and never overruns the 128-byte buffer, also when 64 bytes are staged |
| `Md5Stream.Context.constructor` | libc-parts/md5.c:74-86 | an empty message |
| `Md5Stream.Context.ProcessBlock` | libc-parts/md5.c:307-462 | whole blocks are hashed and counted with carry |
| `Md5Stream.Context.TopUp` | libc-parts/md5.c:227-247 | topping up appends the consumed bytes; what is left over finds an empty buffer |
| `Md5Stream.Context.BlockByBlock` | libc-parts/md5.c:261-267 | the unaligned loop leaves 1 to 64 bytes |
| `Md5Stream.Context.Bulk` | libc-parts/md5.c:250-275 | both bulk paths append what they use |
| `Md5Stream.Context.Rest` | libc-parts/md5.c:277-290 | the remaining bytes are staged, or hashed if they fill a block |
| `Md5Stream.Context.ProcessBytes` | libc-parts/md5.c:220-291 | for every state, length and address, the data is appended to the message and at most 64 bytes stay staged |
| `Md5Stream.Context.Finish` | libc-parts/md5.c:111-136 | the result is the RFC 1321 digest of everything fed in |
| `Md5Stream.Buffer` | libc-parts/md5.c:201-216 | the one-shot function gives the digest of its argument |
| `Md5Stream.InPieces` | libc-parts/md5.c:201-291 | however a message is cut into pieces and wherever they lie, the digest is that of the whole |
| `BootRegions.ConflictTest` | laden/loader.c:194-199 | passing the overlap test means being disjoint; failing it means overlapping or touching |
| `BootRegions.InWayIsMeeting` | laden/loader.c:247-253 | the three-way test is intersection of closed intervals |
| `BootRegions.RestartAdvances` | laden/loader.c:262 | a restart raises the candidate exactly if the sum does not wrap |
| `BootRegions.SkipsOnlyTaken` | laden/loader.c:254-265 | a restart skips only addresses that conflict |
| `BootRegions.MemCheck` | laden/loader.c:58-127 | exactly which regions pass |
| `BootRegions.TrustExactly` | laden/loader.c:58-127 | no region that passes clashes with non-conventional memory, exactly if no two neighbouring bytes of a conventional descriptor are met by non-conventional ones that are all listed before it |
| `BootRegions.OrderedIsTrustworthy` | laden/loader.c:58-127 | so it is if no conventional descriptor follows a non-conventional one that it meets |
| `BootRegions.ReservedUnnoticed` | laden/loader.c:58-127 | a map with two descriptors where a clashing region passes |
| `BootRegions.Loader.SearchDesc` | laden/loader.c:237-267 | the search ends and finds the lowest free address among the low end and later pages, or there is none that fits |
| `BootRegions.SearchFailsExactly` | laden/loader.c:218-286 | the search finds nothing exactly if every place for the region is the low end of a conventional descriptor of exactly its size |
| `BootRegions.ExactSizePassedOver` | laden/loader.c:228-229 | a free descriptor of exactly the size of the region is passed over |
| `BootRegions.Loader.FindPlace` | laden/loader.c:218-286 | the lowest place in the first descriptor that has one, descriptors of exactly the size of the region aside; none exactly if there is no other place |
| `BootRegions.Loader.Relocate` | laden/loader.c:203-296 | the region and its bytes are moved there; failure exactly if it is not movable or the search finds nothing |
| `BootRegions.Loader.NewSlot` | laden/loader.c:170-184 | an unused slot, or the table is full |
| `BootRegions.Loader.MakeWay` | laden/loader.c:192-297 | all regions in the way are moved |
| `BootRegions.Loader.AddRegion` | laden/loader.c:156-297 | on return all used regions are pairwise disjoint, the new one lies where asked, every other one keeps its length and bytes and moves only if it is movable and was in the way; failure only for the source's reasons |
| `BootRegions.Loader.RemoveRegion` | laden/loader.c:302-316 | exactly the regions of that name become unused |
| `BootRegions.PutKept` | laden/loader.c:275-282 | moving one region overwrites no byte of another |
| `FutexMutex.StepInv` | hurd/mutex.h:52-126 | every step of every thread keeps: the word is 0, 1 or 2, nonzero exactly if one thread owns the mutex or is midway through its release |
| `FutexMutex.MutualExclusion` | hurd/mutex.h:52-126 | in every reachable state of any number of threads at most one holds the mutex, the plain store of 0 overwrites nobody's acquisition, and the assertions hold |
| `FutexMutex.StepNoneLost` | hurd/mutex.h:75-97 | with two threads every step keeps: a sleeper implies WAITERS or a wake-up still owed |
| `FutexMutex.OneStranded` | hurd/mutex.h:61-71 | with three threads a sleeper can be left behind while the mutex is free |
| `FutexMutex.WakeupsKept` | hurd/mutex.h:52-126 | no wake-up is lost in any run exactly if there are at most two threads |
| `RecursiveMutex.StepInv` | hurd/rmutex.h:53-142 | every step keeps the invariant that relates both program counters, owner, count and nesting depth |
| `RecursiveMutex.MutualExclusion` | hurd/rmutex.h:53-142 | two threads never both have the mutex |
| `RecursiveMutex.OwnerAndCount` | hurd/rmutex.h:60-83 | outside the inner critical section owner is nil exactly if count is 0, else the magnitude of count is the owner's nesting depth |
| `RecursiveMutex.AssertionsHold` | hurd/rmutex.h:62-121 | in every reachable state of any number of threads the assertions on owner and count hold where they stand |
| `RecursiveMutex.CountDiscipline` | hurd/rmutex.h:66-93 | only the owner or the taker changes the magnitude; a contender only turns it negative |
| `RecursiveMutex.StepNoneLost` | hurd/rmutex.h:86-141 | with two threads every step keeps: a sleeper on the count implies a negative count or a wake-up still owed, and a sleeper on the inner futex WAITERS or a wake-up still owed |
| `RecursiveMutex.OneStranded` | hurd/rmutex.h:74-84 | with three threads a sleeper can be left behind while the mutex is free |
| `RecursiveMutex.WakeupsKept` | hurd/rmutex.h:53-142 | no wake-up of either kind is lost in any run exactly if there are at most two threads |
| `ElfLoader.Space.CopyIn` | libc-parts/loader.c:124-126 | copies exactly the segment's bytes of that range |
| `ElfLoader.Space.FirstPage` | libc-parts/loader.c:112-129 | an unaligned first page is shared if it exists, else allocated |
| `ElfLoader.Space.LaterPage` | libc-parts/loader.c:133-152 | a page of the loop; a page that lies inside the segment cannot exist yet |
| `ElfLoader.Space.LoadSegment` | libc-parts/loader.c:106-152 | all pages and bytes of the segment |
| `ElfLoader.Space.Load` | libc-parts/loader.c:36-156 | for disjoint segments in any order, sharing pages freely: exactly the touched pages are allocated, each once, and every byte of memory is what the segments ask for |
| `ElfLoader.ImageIsRight` | libc-parts/loader.c:98-150 | the file's bytes below filesz and zeros up to memsz |
| `ElfLoader.WantedInSegment` | libc-parts/loader.c:98-150 | the wanted byte does not depend on the order of segments |
| `ElfLoader.PageLoopEnds` | libc-parts/loader.c:133 | for any 32-bit fields the loop reaches an address that ends it exactly if the 32-bit end is at most the last page address; without wrap-around, if the segment ends at or below the last page or at exactly 2^32 |
| `BitArray.CheckByteFinds` | libbitarray/bit-array.h:67-81 | the two table look-ups find the lowest clear bit, or none |
| `BitArray.TakeBit` | libbitarray/bit-array.h:102-107 | the bit found is the first free one in cyclic order and the only one changed |
| `BitArray.BitAlloc` | libbitarray/bit-array.h:60-129 | the first zero bit in cyclic order from the start is set and nothing else; -1 exactly if all bits are set |
| `BitArray.BitDealloc` | libbitarray/bit-array.h:132-138 | exactly that bit is cleared |
| `BitArray.BitSet` | libbitarray/bit-array.h:30-41 | exactly that bit is set; tells whether it was clear |
| `BitArray.BitSetTo` | libbitarray/bit-array.h:45-54 | exactly that bit gets the value |
| `BitArray.BitTest` | libbitarray/bit-array.h:141-144 | reads that bit |
| `BitArray.AllocThenDealloc` | libbitarray/bit-array.h:60-138 | deallocating what was allocated restores the array |
| `LruOrder.TouchedIsMostRecent` | benchmarks/cache.c:838-923 | a lookup keeps the cached ids a prefix of the most-recently-used order of the whole history |
| `LruOrder.EvictionLeavesRoom` | benchmarks/cache.c:894-911 | with at least one line the new entry stays, the limit holds again, and a fifth of the lines, rounded up, goes |
| `LruOrder.AfterIsMostRecent` | benchmarks/cache.c:838-923 | after any lookups the cached ids are the most recently used ones, all of them or at least as many as an eviction leaves |
| `LruCache.UnlinkRing` | benchmarks/cache.c:783-790 | two pointer writes take one object out of the ring |
| `LruCache.EnqueueRing` | benchmarks/cache.c:804-817 | four pointer writes put it in front |
| `LruCache.Cache.ListUnlink` | benchmarks/cache.c:781-797 | the ring without the object; a one-element ring stays as it is |
| `LruCache.Cache.ListEnqueue` | benchmarks/cache.c:800-822 | the object comes first |
| `LruCache.Cache.ListDequeue` | benchmarks/cache.c:825-834 | the tail is taken off |
| `LruCache.Cache.ObjectFree` | benchmarks/cache.c:547-558 | the object joins the free list, its id overwritten by the next pointer |
| `LruCache.Cache.LookupHard` | benchmarks/cache.c:666-766 | a recycled or new object that is in neither list, filled from the database |
| `LruCache.Cache.Evict` | benchmarks/cache.c:901-911 | exactly the k least recently used objects leave list and hash |
| `LruCache.Cache.Lookup` | benchmarks/cache.c:839-923 | the object an uncached lookup would build; the cached ids are updated as LRU demands; list, hash, counter and free list stay in step |
| `LruCache.Run` | benchmarks/cache.c:1005-1013 | for every sequence of lookups every answer is right and the contents are exactly those that evicting a fifth of the lines at the limit leaves: the most recently used ids, no more than the limit |

## Left out

- calloc, valloc, independent_calloc, mallopt, mallinfo and malloc_trim: would only add easy members over the same state.
- The statistics n_mmaps, mmapped_mem and the maxima: kept as fields where the code tests them, otherwise unspecified.
- Contiguous sbrk, trimming, mremap and the WIN32 emulation: not in this build or inert in it, since MORECORE always fails.
- The public locking wrappers of the allocator: thin.
- Bytes below word granularity in the allocator's memory: blocks start and end on word boundaries, so words suffice.
- Malloc.Allocator.Memalign: requires an alignment up to 2^31 and a padded size that does not wrap; beyond that the code loops forever or uses a chunk that is too small.
- BootRegions.Loader.AddRegion: requires that no region or memory lies so close to the end of the 32-bit space that a sum could wrap; the relocation callback is assumed not to change the table or the regions' bytes.
- ElfLoader.Space.Load: requires segments to end at or below the last page, because the code does not end otherwise, or loads nothing beyond the first page if the segment ends at exactly 2^32; page protection (`ro`) is not modelled.
- ss_mutex_trylock and ss_rmutex_trylock: the run-level statements cover lock and unlock only.
- Tracing, debug output and the deadlock report of futex_wait: futex_wait may return early, in which case the loops retry.
- Fairness and termination of the retry loops of the mutexes.
- loader_regions_reserve and the ELF loader of laden/loader.c, md5_stream, and the discardable-memory build of the cache.
- The sqlite query, hash table and malloc behind the cache: a database function, a map and fresh addresses.
