# Verified models of the allocators, the number formatter and the uniform distribution

The project models six parts of the library in Dafny and proves what they promise.

**The lock-free single-arena allocator.**  `ArenaState` holds the shared memory: the frontier word, the metadata
records with their packed state words, the metadata block managers, the block headers and the lists.  `ArenaOps` has
one function per atomic action, `ArenaThreads` the program each thread runs, one atomic action per step, for any number
of threads.  Addresses are offsets from `allocation_base_` in 64-byte units; record r occupies the unit that starts at
`metadataStart - r`.  Auxiliary state says who answers for each block and record: the chain of blocks (whose header
fields are written only after the frontier CAS), the holder of each block, the owner of each record, and the client's
live blocks.  No action reads it.

The code trusts the client in one thing.  `ArenaCarefulClient.Careful` says it in terms of the client's own calls: the
client keeps an account of the addresses it has been given and has not passed to `do_try_deallocate` since, and frees
only what is on its account.  `ArenaCarefulClient.CarefulIsOrderly` proves that every run of such a client, with any
number of threads, is *orderly*: no free is accepted while an allocation of the same address is between its store of
IN_USE and its return (`ArenaThreads.Orderly`).  The theorems about the single arena are about orderly runs, and so hold
in every state of a careful run; `CarefulBlocksAreSafe`, `CarefulFreesOnce` and `CarefulFreesAreAccepted` say what the
client gets.  The transition relation itself asks for none of this: `ArenaHistory.AcceptsOnlyLive` shows for any step
that being orderly is exactly the condition under which an accepted free takes a block the client has, and
`ArenaRacingFree` gives a run of a careless client in which a second free races with the re-allocation of the block, is
accepted, and leaves the client with a block that waits to be handed out again.  In the rows below, "reachable" for the
single arena means reachable by an orderly run.

`ArenaInvariant` joins the four protocols: the chain tiles the arena up to the frontier, each block has one holder and
each record one owner, each manager's active count is exact, and no kept block reaches a kept record.
`ArenaRecordOps`, `ArenaRegionOps` and `ArenaManagerOps` prove that every action keeps it, `ArenaCoupling` and
`ArenaInterference` tie it to the threads' program counters, the `...Steps` modules go through every step, and
`ArenaSafety` and `ArenaHistory` state the consequences for every reachable state and every run, and
`ArenaClientRecords`, `ArenaCarefulClient` and `ArenaBlockSizes` what they mean for a client; `ArenaVersions` says what
the version in a record's word is good for.  `ArenaProgress` and
`ArenaReclamation` show that the machine does its work: a thread on its own, started in any reachable state, allocates
when there is something to allocate from, frees what the client has, and rolls the frontier back.  `ArenaMaintenance`
runs maintenance as the loops of the source, in a class, for one thread alone.  `PackedWords` shows that the two packed 64-bit words represent the model's values faithfully, and
`SizeClasses` builds the size-class table and its lookup.

**The static-arena allocator.**  `StaticArenaState`, `StaticArenaThreads` and `StaticArenaSafety` are its concurrent
model, `StaticArenaProgress` shows that it serves; `StaticArenaResource` is the single-threaded class, with the exact
condition for failure and best fit.

**The bit-block allocator's runs and counters** (`BitBlock`, `BitBlockSafety`, `BitBlockProgress`, `BitBlockBound`) and
**the sharded statistics** (`Statistics`), as machines over atomic updates by any number of threads.

**Number formatting.**  `Numbers`, `TextBuffer`, `NumberFormat` and `FloatFormat` render integers and doubles below 2^64;
doubles are counted in quanta of 2^-1074, so every value is an integer and rounding is exact.  `IntegerText` reads the
text of an integer back, from the specification it was formatted with.

**Format strings.**  `FormatSpec` specifies the replacement-field grammar, `FormatParser` is the parser, `BraceFormat`
the scan of the format string, and `FormatPieces` what a format means, piece by piece.

**The uniform integer distribution.**  `UniformInt` proves uniformity by counting sequences of engine outputs.

Where the code and its comments disagree, the model follows the code.  One case matters: the comment at
`include/__memory_resource/lockfree_bitblock_resource.h:63-66` calls `free_count_` an upper bound on the longest clear
run, but a release clears the bits first and adds to the count afterwards, so for a moment the count is too low.
`BitBlockBound.CountBoundsLongestRun` says exactly when the bound holds, `BitBlockBound.SkipIsWrong` exactly when the
test on the count turns away a request the block could meet, and `BitBlockBound.CountBelowClearRun` reaches a state in
which it does.

The concurrent models assume sequential consistency: each step is one atomic action and fences add nothing.

## Model

| member | source | states |
|---|---|---|
| ArenaSafety.LiveBlocksAreSafe | include/__memory_resource/lockfree_single_arena_resource.h:1182-1455 | In every state reachable by an orderly run of any number of threads allocating, freeing and running maintenance, the blocks returned and not yet accepted back are whole blocks of the chain, end at or below the frontier, hold the request plus its header, and are pairwise disjoint |
| ArenaCarefulClient.CarefulIsOrderly | include/__memory_resource/lockfree_single_arena_resource.h:1354-1455 | If the client frees only addresses on its account, each once, then in no step does a free meet an allocation of the same address in flight, whatever its threads do |
| ArenaCarefulClient.CarefulBlocksAreSafe | include/__memory_resource/lockfree_single_arena_resource.h:1182-1455 | At every moment of a careful client's run all blocks on its account are live, and live blocks hold request and header, end at or below the frontier and are pairwise disjoint |
| ArenaCarefulClient.CarefulFreesOnce | include/__memory_resource/lockfree_single_arena_resource.h:1354-1455 | At every moment of a careful client's run a block has been returned exactly as often as it has been accepted back, plus once if it is live |
| ArenaCarefulClient.CarefulFreesAreAccepted | include/__memory_resource/lockfree_single_arena_resource.h:1376-1420 | No free of a careful client is refused: the index and state checks pass and the CAS succeeds, though other threads run between them |
| ArenaCarefulClient.AccountIsExact | include/__memory_resource/lockfree_single_arena_resource.h:1182-1455 | Along a careful run the live blocks are exactly those on the account and those whose free is still undecided, never both |
| ArenaClientRecords.StepLeaves | include/__memory_resource/lockfree_single_arena_resource.h:1182-1566 | No step of any operation touches the record of a block the client has, but for the CAS that accepts its free |
| ArenaSafety.BlocksTileTheArena | include/__memory_resource/lockfree_single_arena_resource.h:332-359 | In every reachable state each unit below the frontier lies in exactly one block, the frontier word names the block that ends at the frontier (none only when the frontier is at the base), and offsets fit the packed word |
| ArenaSafety.KeptNeverOverlap | include/__memory_resource/lockfree_single_arena_resource.h:784-842 | Boundary protocol: a block whose allocator kept it never overlaps a record whose growth was kept, even when both sides passed their first check on stale values |
| ArenaHistory.UndecidedMemoryUntouched | include/__memory_resource/lockfree_single_arena_resource.h:1604-1663 | Neither side writes into the contested memory before it has decided to keep it: whatever step is taken, block headers and whole records stay what memory held while their owner may still give them back |
| ArenaSafety.RecordsAreInOnePlace | include/__memory_resource/lockfree_single_arena_resource.h:1774-1812 | Every record below the count is in exactly one of: a free list, the pending list, a bin, the client's hands, one thread's hands; and it has at most one bin entry |
| ArenaSafety.BlocksHaveOneHolder | include/__memory_resource/lockfree_single_arena_resource.h:1057-1099 | At most one record whose word has been stored answers for each block of the chain, and one does exactly when no thread is still cutting the block |
| ArenaSafety.QuietBlocks | include/__memory_resource/lockfree_single_arena_resource.h:1376-1450 | Nothing is lost: when no thread is inside a call, every block of the chain is live, on the pending list, or AVAILABLE in a bin |
| ArenaSafety.ActiveCountIsExact | include/__memory_resource/lockfree_single_arena_resource.h:132-163 | Each manager's active count equals its records below the count that are not on its free list plus the threads between reserve and bind or between give-back and release |
| ArenaSafety.TrimDiscardsOnlyFreeRecords | include/__memory_resource/lockfree_single_arena_resource.h:966-1027 | A trim step discards only records on a free list, none of them in any thread's hands |
| ArenaSafety.RecordsInUseStayBelowCount | include/__memory_resource/lockfree_single_arena_resource.h:966-1027 | Every record bound to a block or held by a thread keeps an index below the record count |
| ArenaSafety.NeverDiscards | include/__memory_resource/lockfree_single_arena_resource.h:1802-1812 | The DISCARD branch of a claim is unreachable: a popped record is AVAILABLE, FRONTIER_RECLAIM_IN_PROGRESS or FRONTIER_RECLAIMED |
| ArenaSafety.NeverSkipsBatchEntry | include/__memory_resource/lockfree_single_arena_resource.h:1070-1083 | Every entry left in a batch is DEALLOCATED_PENDING when it is published, so none is skipped and lost |
| ArenaSafety.LiveBlockCanBeFreed | include/__memory_resource/lockfree_single_arena_resource.h:1376-1400 | The header of a live block leads to a record below the count that is IN_USE for that very block, so neither check of do_try_deallocate refuses it |
| ArenaSafety.ReturnedBlockIsNew | include/__memory_resource/lockfree_single_arena_resource.h:1293-1352 | do_allocate never returns a block the client already has |
| ArenaSafety.ThreadStepOk | include/__memory_resource/lockfree_single_arena_resource.h:1182-1455 | Every atomic step of every operation, but for the CAS that accepts a free of a record whose allocation has not returned, keeps the invariant, leaves what other threads hold as it was, and leaves the stepping thread knowing what it needs next |
| ArenaSafety.RunHolds | include/__memory_resource/lockfree_single_arena_resource.h:1182-1455 | Every state of every orderly run satisfies the joint invariant of the four protocols, and every thread's program counter agrees with it |
| ArenaHistory.LiveChanges | include/__memory_resource/lockfree_single_arena_resource.h:1354-1455 | The set of live blocks changes in two kinds of step only: returning a block, and accepting one back |
| ArenaHistory.AcceptsOnlyLive | include/__memory_resource/lockfree_single_arena_resource.h:1376-1420 | From any reachable state, whichever thread steps and orderly or not, an accepted free takes back a block the client has exactly when no allocation of that address is between IN_USE and its return |
| ArenaHistory.AcceptedOncePerAllocation | include/__memory_resource/lockfree_single_arena_resource.h:1354-1455 | Over any orderly run a block has been returned exactly as often as it has been accepted back, plus once if it is live |
| ArenaVersions.VersionCountsAccepts | include/__memory_resource/lockfree_single_arena_resource.h:1400-1412 | Over any orderly run the version of a record that stays in the region is the number of its frees accepted, modulo 4096; no other step moves it |
| ArenaVersions.StaleFreeIsRefused | include/__memory_resource/lockfree_single_arena_resource.h:1390-1412 | A free that has read a record's word before another free of it was accepted is refused by its CAS, even if the block has been allocated again, unless 4096 frees were accepted in between |
| ArenaSafety.PrematureIsInFlight | include/__memory_resource/lockfree_single_arena_resource.h:1293-1352 | The record of an accepting CAS is still being filled, or not yet returned, exactly when some thread's do_allocate is between IN_USE and its return for that address |
| ArenaRacingFree.RacingFreeIsAccepted | include/__memory_resource/lockfree_single_arena_resource.h:1376-1412 | In any arena with room for a block but not for some other request behind it, an orderly run leads to a state whose next step accepts a second free of a block that is being allocated again and that the client does not have |
| ArenaRacingFree.LiveBlockIsPending | include/__memory_resource/lockfree_single_arena_resource.h:1310-1352 | After such a free the allocation still returns: a run reaches a state in which the client has a block that is DEALLOCATED_PENDING and on the pending list |
| ArenaProgress.AllocatesAtFrontier | include/__memory_resource/lockfree_single_arena_resource.h:1182-1352 | From every reachable state, wherever the other threads stand: when a free record or room for a new one is to be had, and the least class for the request fits with the slack between frontier and metadata, a thread running on its own takes do_allocate to its end; the client then has a block it did not have, of that class, at the old frontier, and nothing else has changed for it |
| ArenaProgress.IdleAllocates | include/__memory_resource/lockfree_single_arena_resource.h:1678-1770 | Between calls no manager turns the thread away: what is left decides alone, a free record or one more, and the space behind the frontier |
| ArenaProgress.AllocatesFromBin | include/__memory_resource/lockfree_single_arena_resource.h:1814-1900 | From every reachable state, a thread on its own whose class has an AVAILABLE block in its bin gets that block; frontier and chain stay |
| ArenaProgress.SearchesAgain | include/__memory_resource/lockfree_single_arena_resource.h:1240-1290 | A call that has a record in reserve and searches again takes an AVAILABLE block of its class, and gives the record back to its manager's free list |
| ArenaProgress.AloneAllocates | include/__memory_resource/lockfree_single_arena_resource.h:1182-1352 | A lone thread in an empty arena that can hold the block, one record and the slack is given the block at the base |
| ArenaReclamation.FreesBlock | include/__memory_resource/lockfree_single_arena_resource.h:1354-1455 | From every reachable state, a thread on its own frees any block the client has: the client no longer has it, and its record waits on the pending list as DEALLOCATED_PENDING |
| ArenaReclamation.WindowReclaims | include/__memory_resource/lockfree_single_arena_resource.h:1101-1152 | From every state between calls, a thread on its own takes a maintenance window to its end through the steps of the concurrent program: live blocks stay, nothing is pending, the frontier is at the end of a live block or at the base, blocks below it are untouched, and the last metadata block holds a record in use |
| ArenaReclamation.FreedBlockServesAgain | include/__memory_resource/lockfree_single_arena_resource.h:1069-1099 | A block below another live one, once freed and passed through a window, is given out again to a request of its class |
| ArenaReclamation.SpaceComesBack | include/__memory_resource/lockfree_single_arena_resource.h:1101-1152 | When the client has given everything back, a window leads to an arena whose frontier is at the base, and that serves any request for which a record and the space are there |
| ArenaBlockSizes.LiveBlocksAreSnug | include/__memory_resource/lockfree_single_arena_resource.h:760-775 | In every reachable state a live block is of the least class that holds its request and header, and stays so until it is freed |
| ArenaBlockSizes.LiveBlockWaste | include/__memory_resource/lockfree_single_arena_resource.h:485-497 | With the table of any legal maximum and percentage, a live block holds request and header and exceeds them by at most the waste percentage, rounded up, plus 63 bytes |
| ArenaRegionOps.CarveKeeps | include/__memory_resource/lockfree_single_arena_resource.h:1616-1640 | The frontier CAS keeps the invariant with the new block's header still unwritten and the block not yet decided on |
| ArenaRegionOps.KeepBlockKeeps | include/__memory_resource/lockfree_single_arena_resource.h:1624-1634 | Keeping a block whose re-check saw no overlap keeps the invariant: it is clear of every kept record |
| ArenaRegionOps.UndoCarveKeeps | include/__memory_resource/lockfree_single_arena_resource.h:1639-1645 | Giving back the topmost block restores the frontier word its cut had replaced and keeps the invariant |
| ArenaRegionOps.RollBackKeeps | include/__memory_resource/lockfree_single_arena_resource.h:940-952 | Rolling the frontier back over a claimed last block, by the previous_block_ field of its header, keeps the invariant; that field agrees with the chain |
| ArenaRegionOps.WalkClaimKeeps | include/__memory_resource/lockfree_single_arena_resource.h:1531-1537 | A walk's claim of an AVAILABLE record, wherever its bin entry is at that moment, keeps the invariant |
| ArenaRegionOps.WalkFinishKeeps | include/__memory_resource/lockfree_single_arena_resource.h:1554-1561 | FRONTIER_RECLAIMED may be stored while the record is still in a bin, or in the hands of a thread that popped it |
| ArenaWindowSteps.CandidateIsLast | include/__memory_resource/lockfree_single_arena_resource.h:894-940 | If the frontier word is unchanged when a batch claim tries its CAS, even if it changed and came back meanwhile, the claimed block is the word's predecessor |
| ArenaManagerOps.GrowKeeps | include/__memory_resource/lockfree_single_arena_resource.h:810-816 | The count CAS of a growth, made with a slot on the record's manager, keeps the invariant with the record undecided and holding any word that names no block as IN_USE or AVAILABLE |
| ArenaManagerOps.KeepGrownKeeps | include/__memory_resource/lockfree_single_arena_resource.h:822-832 | Keeping a record whose re-check saw the frontier below it keeps the invariant |
| ArenaManagerOps.UndoGrowKeeps | include/__memory_resource/lockfree_single_arena_resource.h:834-840 | Giving back the topmost record keeps the invariant and leaves its slot with the thread |
| ArenaManagerOps.PushFreeRecordKeeps | include/__memory_resource/lockfree_single_arena_resource.h:854-866 | Pushing a recycled record on its manager's free list before the slot is released keeps the active count exact |
| ArenaManagerOps.TrimmedAreFree | include/__memory_resource/lockfree_single_arena_resource.h:984-1000 | While a manager's trimming bit is set, every one of its records is on its free list |
| ArenaManagerOps.ShrinkKeeps | include/__memory_resource/lockfree_single_arena_resource.h:1003-1011 | The count CAS of a trim, from anywhere in the tail manager to its first record, keeps the invariant |
| ArenaRecordOps.AcceptKeeps | include/__memory_resource/lockfree_single_arena_resource.h:1400-1412 | The CAS from IN_USE to LOCKED on a live block moves its record from the client to the freeing thread and keeps the invariant |
| ArenaRecordOps.PublishKeeps | include/__memory_resource/lockfree_single_arena_resource.h:1085-1087 | Storing AVAILABLE before the record is pushed to its bin keeps the invariant, though a walk may claim it in between |
| ArenaRecordOps.PushBinKeeps | include/__memory_resource/lockfree_single_arena_resource.h:1088-1097 | A published record goes to the bin of its own block size |
| ArenaRecordOps.PopBinKeeps | include/__memory_resource/lockfree_single_arena_resource.h:1774-1790 | A pop from a bin leaves the record in one thread's hands whatever a walk is doing to it |
| ArenaRecordOps.StealPendingKeeps | include/__memory_resource/lockfree_single_arena_resource.h:1029-1034 | Stealing any part of the pending records at once hands them all to one thread |
| ArenaMaintenance.Resource.FindCandidate | include/__memory_resource/lockfree_single_arena_resource.h:900-927 | Finds the first batch entry that ends at the frontier, or reports that there is none |
| ArenaMaintenance.Resource.ReclaimBatch | include/__memory_resource/lockfree_single_arena_resource.h:885-964 | Afterwards no entry left in the batch ends at the frontier; the client's blocks and the pending list are unchanged |
| ArenaMaintenance.Resource.PublishBatch | include/__memory_resource/lockfree_single_arena_resource.h:1069-1099 | Every entry the roll-back left goes to a bin: none stays with the thread |
| ArenaMaintenance.Resource.ProcessList | include/__memory_resource/lockfree_single_arena_resource.h:1110-1141 | Working off a stolen list in batches of any size leaves none of its records with the thread |
| ArenaMaintenance.Resource.Walk | include/__memory_resource/lockfree_single_arena_resource.h:1467-1566 | Alone, a walk ends with the block below the frontier not AVAILABLE |
| ArenaMaintenance.Resource.Trim | include/__memory_resource/lockfree_single_arena_resource.h:966-1027 | Alone, a trim ends with the last metadata block holding a record in use, or with no record; the frontier stays |
| ArenaMaintenance.Resource.RunMaintenanceWindow | include/__memory_resource/lockfree_single_arena_resource.h:1101-1144 | One window empties its shard's list, keeps the client's blocks, and leaves frontier and metadata rolled back as far as walk and trim can |
| ArenaMaintenance.Resource.RunMaintenanceWindowAll | include/__memory_resource/lockfree_single_arena_resource.h:1146-1152 | Maximal roll-back: afterwards the frontier is at the end of a live block or back at the base; with no live block it is always at the base |
| ArenaMaintenance.RolledAllTheWay | include/__memory_resource/lockfree_single_arena_resource.h:1494-1566 | With nothing pending and a walk just done, the block below the frontier is IN_USE |
| ArenaMaintenance.QuietIsAlone | include/__memory_resource/lockfree_single_arena_resource.h:1146-1152 | Any reachable state with no thread inside a call is one the single-threaded run may start from |
| PackedWords.FrontierRoundTrip | include/__memory_resource/lockfree_single_arena_resource.h:342-359 | Unpacking the packed frontier word gives back frontier and predecessor, no predecessor included |
| PackedWords.FrontierWordsCompare | include/__memory_resource/lockfree_single_arena_resource.h:342-347 | The CAS on the packed frontier word compares exactly the pair (predecessor, frontier) |
| PackedWords.WordRoundTrip | include/__memory_resource/lockfree_single_arena_resource.h:381-408 | Unpacking the packed state word gives back block offset, null included, state and version |
| PackedWords.BlockWordsCompare | include/__memory_resource/lockfree_single_arena_resource.h:381-385 | The CAS on the packed state word compares exactly block, state and version |
| PackedWords.StateAndVersionChange | include/__memory_resource/lockfree_single_arena_resource.h:410-424 | with_state changes the state field alone; incrementing the version changes it alone and wraps from 4095 to 0 |
| SizeClasses.GrownIsLarger | include/__memory_resource/lockfree_single_arena_resource.h:485-497 | The grown size exceeds the current one by at least a hundredth and at most the waste percentage rounded up plus 63, without wrapping, so the fallback of adding one alignment is never taken |
| SizeClasses.TableShape | include/__memory_resource/lockfree_single_arena_resource.h:522-539 | For every legal maximum and waste percentage the table starts at 64, increases strictly in multiples of 64, and ends at the aligned maximum |
| SizeClasses.CountClasses | include/__memory_resource/lockfree_single_arena_resource.h:499-512 | The loop that sizes the table counts exactly the table's classes |
| SizeClasses.BuildSizes | include/__memory_resource/lockfree_single_arena_resource.h:522-537 | The built array is the table followed by the sentinel |
| SizeClasses.Search | include/__memory_resource/lockfree_single_arena_resource.h:543-562 | The binary search, from any start not above the answer, returns the least class that holds the size, or the sentinel |
| SizeClasses.BuildLookup | include/__memory_resource/lockfree_single_arena_resource.h:569-581 | Every lookup entry is the least class of its number of units, and fits 16 bits |
| SizeClasses.IndicesFit16Bits | include/__memory_resource/lockfree_single_arena_resource.h:569-579 | No legal table has more than 2602 bins, so the 16-bit cast never truncates |
| SizeClasses.SameClassInUnit | include/__memory_resource/lockfree_single_arena_resource.h:583-605 | All sizes within one 64-byte unit have the same class, so the lookup is exact |
| SizeClasses.BinIndex | include/__memory_resource/lockfree_single_arena_resource.h:760-775 | Lookup plus binary search returns the least class that holds the request, or the sentinel |
| SizeClasses.FreedBlockReturnsToItsBin | include/__memory_resource/lockfree_single_arena_resource.h:1088-1092 | The class of a class size is that class: a freed block goes back to the bin it was cut for |
| SizeClasses.WasteIsBounded | include/__memory_resource/lockfree_single_arena_resource.h:485-497 | A class wastes at most the waste percentage of the request, rounded up, plus 63 bytes |
| SizeClasses.TableConfigures | include/__memory_resource/lockfree_single_arena_resource.h:1206-1221 | The table, counted in units, is a configuration the concurrent model accepts, with the same class for every request |
| StaticArenaSizes.BlockSizeIsLeast | include/__memory_resource/lockfree_static_arena_resource.h:101-119 | block_size_for is the least block size that holds the request and a free block's header |
| StaticArenaSizes.RoundToBlockSize | include/__memory_resource/lockfree_static_arena_resource.h:105-119 | The rounding loop computes block_size_for |
| StaticArenaSizes.GetBin | include/__memory_resource/lockfree_static_arena_resource.h:121-130 | The bin of a block size is the one whose class it is, or bin 7 above 4096 |
| StaticArenaSafety.RunHolds | include/__memory_resource/lockfree_static_arena_resource.h:205-335 | Every state of every run by any number of threads satisfies the conservation invariant |
| StaticArenaSafety.PiecesPartition | include/__memory_resource/lockfree_static_arena_resource.h:205-321 | In every reachable state [arena_start_, current_ptr_) is exactly partitioned into pieces, and current_ptr_ is within the arena |
| StaticArenaSafety.PiecesAreInOnePlace | include/__memory_resource/lockfree_static_arena_resource.h:240-320 | Each piece is in exactly one of: the client's hands, one bin, the hands of one running thread |
| StaticArenaSafety.ExactSizes | include/__memory_resource/lockfree_static_arena_resource.h:101-158 | Pieces are aligned; a live block has exactly block_size_for(request) bytes; a block in bins 0-6 has the bin's class size; a bin-7 block's header holds its true size, above 4096 |
| StaticArenaSafety.FreePiecesOk | include/__memory_resource/lockfree_static_arena_resource.h:164-181 | Each iteration of free_pieces keeps the pieces tiled and the rest a multiple of 64 below twice the next class |
| StaticArenaProgress.ServesFromTail | include/__memory_resource/lockfree_static_arena_resource.h:218-238 | From every reachable state, wherever the other threads stand, a thread on its own whose request fits the tail gets a new piece of exactly block_size_for(request) bytes at current_ptr_ |
| StaticArenaProgress.ServesFromBin | include/__memory_resource/lockfree_static_arena_resource.h:244-262 | With the tail too small, it gets the top block of the first class bin, from its own class up, that has one |
| StaticArenaProgress.FreedBlockServesAgain | include/__memory_resource/lockfree_static_arena_resource.h:323-335 | With the tail too small, a freed block of a class bin is what the next request of its size is given |
| StaticArenaResource.Resource.FreePieces | include/__memory_resource/lockfree_static_arena_resource.h:164-181 | The remainder of a split is tiled exactly by free pieces, each a block size; nothing outside it changes |
| StaticArenaResource.Resource.TakeFromClass | include/__memory_resource/lockfree_static_arena_resource.h:249-262 | A class-bin hit is a smallest adequate free block; the rest of it is freed |
| StaticArenaResource.Resource.FindBest | include/__memory_resource/lockfree_static_arena_resource.h:272-288 | The scan finds the first block of the smallest adequate size in the stolen list, or none |
| StaticArenaResource.Resource.TakeLarge | include/__memory_resource/lockfree_static_arena_resource.h:268-320 | A bin-7 hit is a smallest adequate free block and the others are pushed back; it fails exactly when no free block is adequate |
| StaticArenaResource.Resource.TryBump | include/__memory_resource/lockfree_static_arena_resource.h:218-238 | The bump pointer fails exactly when the tail is smaller than the block size; otherwise the client gets the tail's first bytes |
| StaticArenaResource.Resource.Allocate | include/__memory_resource/lockfree_static_arena_resource.h:205-321 | Within capacity and alignment it returns null exactly when the tail and every free block are smaller than block_size_for(bytes); otherwise the tail's first bytes, or else a smallest adequate free block |
| StaticArenaResource.Resource.Deallocate | include/__memory_resource/lockfree_static_arena_resource.h:323-335 | A freed block goes on top of the bin of its size, and nothing else changes |
| BitBlock.ElementsAreEnough | include/__memory_resource/lockfree_bitblock_resource.h:304-324 | A request is refused exactly when the rounded sum would pass 2^64; otherwise it gets the fewest elements that hold it and its header |
| BitBlock.ClampIsNearest | include/__memory_resource/lockfree_bitblock_resource.h:352-360 | The number of arenas is the one nearest to the request among those from 1 up that both limits allow |
| BitBlock.Construct | include/__memory_resource/lockfree_bitblock_resource.h:233-265 | The constructor gives each arena whose upstream allocation succeeded one empty block and sets the block total to their number, within both limits |
| BitBlockSafety.RunHolds | include/__memory_resource/lockfree_bitblock_resource.h:382-497 | Every state of every run satisfies the accounting invariant |
| BitBlockSafety.FreeCountIsExact | include/__memory_resource/lockfree_bitblock_resource.h:56-85 | In every interleaving free_count_ is the clear bits plus those acquired and not yet subtracted minus those released and not yet added, modulo 2^32 |
| BitBlockSafety.QuietCountIsClear | include/__memory_resource/lockfree_bitblock_resource.h:475-497 | With no update of a block pending, its free_count_ is exactly its clear bits |
| BitBlockBound.LongestIs | include/__memory_resource/lockfree_bitblock_resource.h:56-76 | A block can meet a request exactly when it is no longer than its longest clear run |
| BitBlockBound.ClearAndPendingFit | include/__memory_resource/lockfree_bitblock_resource.h:76-80 | Clear bits and bits acquired and not yet subtracted are together at most the block's elements |
| BitBlockBound.CountIs | include/__memory_resource/lockfree_bitblock_resource.h:76-80 | free_count_ is clear plus not yet subtracted less not yet added; when that is negative the count has wrapped, to more than the clear bits while fewer than 2^32 are pending |
| BitBlockBound.CountBoundsLongestRun | include/__memory_resource/lockfree_bitblock_resource.h:63-71 | The comment's bound: free_count_ is at least the longest clear run exactly when what is not yet added back plus that run is at most the clear bits plus those not yet subtracted, or the count has wrapped |
| BitBlockBound.SkipIsWrong | include/__memory_resource/lockfree_bitblock_resource.h:63-71 | The test on free_count_ turns away a request of 1 to 16 elements that the block could meet exactly when the request is at most the longest clear run and the pending additions leave the count below it |
| BitBlockBound.CountBoundsClear | include/__memory_resource/lockfree_bitblock_resource.h:63-71 | Over all clear bits, in a run or not: the count is at least their number exactly when the bits not yet added back are at most those not yet subtracted, or the count has wrapped |
| BitBlockBound.CountBelowClearRun | include/__memory_resource/lockfree_bitblock_resource.h:63-71 | A reachable state in which the comment's bound fails and every request of 1 to 16 elements is turned away by a block with a clear run that holds it |
| BitBlockSafety.BlockCapHolds | include/__memory_resource/lockfree_bitblock_resource.h:186-218 | total_blocks_ is always the linked blocks plus the outstanding reservations, and never exceeds MAX_NUMBER_OF_BLOCKS |
| BitBlockSafety.LiveRunsApart | include/__memory_resource/lockfree_bitblock_resource.h:326-336 | Live allocations of one block are disjoint runs within its elements |
| BitBlockProgress.LiveRunsHoldTheirRequest | include/__memory_resource/lockfree_bitblock_resource.h:304-336 | In every reachable state a live run of n elements holds the bytes the client asked for and the header, would not with n - 1, and has at most 16 elements |
| BitBlockProgress.MeetsRequest | include/__memory_resource/lockfree_bitblock_resource.h:56-85 | From every reachable state, a thread on its own whose request takes at most 16 elements is given a run of exactly that many from any block that has such a clear run and no update pending |
| BitBlockProgress.MeetsRequestFromNewBlock | include/__memory_resource/lockfree_bitblock_resource.h:186-218 | And from a new block, whenever fewer than MAX_NUMBER_OF_BLOCKS are linked or reserved and upstream has memory |
| Statistics.TotalsAreTheEvents | include/__memory_resource/__extensions/memory_resource_statistics.h:136-155 | At every moment of every run the totals are the numbers of allocations and deallocations counted so far, and the sums of the bytes that those were made for whose bytes have been added; each allocation under way or live knows the bytes it was made for |
| Statistics.RunBalances | include/__memory_resource/__extensions/memory_resource_statistics.h:136-155 | At every moment the allocations exceed the deallocations by those under way or live, and the bytes added exceed those released by the bytes of live and leaving allocations |
| Statistics.CurrentAllocated | include/__memory_resource/__extensions/memory_resource_statistics.h:35-62 | The two loops return the clamped difference of the totals they load, each shard at its own moment |
| Statistics.CurrentBytesAllocated | include/__memory_resource/__extensions/memory_resource_statistics.h:69-84 | Likewise for the bytes |
| Statistics.SnapshotErrsHigh | include/__memory_resource/__extensions/memory_resource_statistics.h:55-62 | With any updates between the loads, the totals differ by at least the allocations less the deallocations made by any moment between the two scans, so the clamp to zero never fires |
| Statistics.BytesSnapshotErrsHigh | include/__memory_resource/__extensions/memory_resource_statistics.h:69-84 | The byte totals differ by at least the bytes asked for by the allocations added by then, less those of the deallocations added, among them the bytes of everything live |
| Statistics.SingleContext.CurrentAllocated | include/__memory_resource/__extensions/memory_resource_statistics.h:55-62 | A single context, on whatever CPUs it runs, reads exactly its number of live allocations |
| Statistics.SingleContext.AllocationMade | include/__memory_resource/__extensions/memory_resource_statistics.h:136-148 | The live count grows by one and the peak stays the maximum live count of the whole run |
| Statistics.SingleContext.DeallocationMade | include/__memory_resource/__extensions/memory_resource_statistics.h:150-155 | The live count drops by one and the peak stays the maximum live count of the whole run |
| UniformInt.DrawInRange | include/__random/uniform_int_distribution.h:144-195 | Every draw lies in [0, range] |
| UniformInt.DrawIsUniform | include/__random/uniform_int_distribution.h:134-195 | Uniformity: for every range, every engine and every n, each value in [0, range] comes from equally many of the sequences of n outputs a draw uses up, rejected attempts at every depth included |
| UniformInt.EveryValueOccurs | include/__random/uniform_int_distribution.h:134-195 | No value is left out: some sequence of outputs gives it |
| UniformInt.SwapGives | include/__random/uniform_int_distribution.h:161-194 | Changing only a draw's accepted attempt can turn its value into any other in range, with as many outputs used |
| UniformInt.SwapBack | include/__random/uniform_int_distribution.h:161-194 | Changing it back restores the original outputs: the change is a bijection |
| UniformInt.CopyOf | include/__random/uniform_int_distribution.h:136-138 | The outputs at or above the threshold form whole copies of [0, range], the last ending at the engine's maximum |
| UniformInt.HighIsLess | include/__random/uniform_int_distribution.h:189 | The recursive call is on a smaller range, so the recursion ends |
| UniformInt.WrapIsDetected | include/__random/uniform_int_distribution.h:190-191 | In 64-bit arithmetic the sum is above range or below its high part exactly when the true sum is above range |
| UniformInt.DrawNarrow | include/__random/uniform_int_distribution.h:161-173 | The rejection loop computes the specified draw |
| UniformInt.DrawWide | include/__random/uniform_int_distribution.h:181-194 | The combining loop, with 64-bit wrap-around, computes the specified draw |
| UniformInt.DrawValue | include/__random/uniform_int_distribution.h:144-195 | draw computes the specified draw and uses exactly its outputs |
| UniformInt.RangeIsExact | include/__random/uniform_int_distribution.h:121-123 | Subtracting in the unsigned type gives b - a for every signed or unsigned type of 8 to 64 bits |
| UniformInt.CastBack | include/__random/uniform_int_distribution.h:130-131 | Adding in the unsigned type and casting back gives a plus the draw |
| UniformInt.Generate | include/__random/uniform_int_distribution.h:118-132 | The result lies in [a, b] and is a plus a draw over b - a; a one-point interval uses no output |
| TextBuffer.Buffer.AppendRepeated | src/format_formatters.cpp:126-141 | A full fixed-capacity buffer holds exactly the prefix of the unbounded text: stopping at its room loses nothing |
| Numbers.DigitsReadBack | src/format_formatters.cpp:209-225 | The digits of a number read back as the number, in every base |
| Numbers.At64Digits | src/format_formatters.cpp:212-219 | A 64-bit value has at most 64 digits in any base from 2, so the array never overruns |
| Numbers.RenderedReads | src/format_formatters.cpp:16-17 | In every base and with either table the text of a number is digits of that base, by their ordinary character values, that read as the number; it starts with a zero only when it is "0" |
| Numbers.RenderedIsInjective | src/format_formatters.cpp:209-225 | Different numbers have different texts, in either digit table |
| NumberFormat.RenderReversed | src/format_formatters.cpp:212-219 | The do-while loop yields the digits of the value, least significant first |
| NumberFormat.DigitBuffer.AppendDigits | src/format_formatters.cpp:209-225 | Appends exactly the rendered number and overruns neither array |
| NumberFormat.LayoutLength | src/format_formatters.cpp:148-175 | The field is as long as the larger of the width and the number's natural length |
| NumberFormat.LayoutShape | src/format_formatters.cpp:154-202 | The fill character asked for, or spaces, surround the natural text on the side the alignment asks for, or zeros stand between prefix and digits |
| NumberFormat.EmitNumber | src/format_formatters.cpp:143-203 | The buffer receives exactly the specified field, or its prefix when the buffer is full |
| NumberFormat.UnsignedMagnitudeToString | src/format_formatters.cpp:404-426 | Every 64-bit magnitude in every base from 2 to 36 is laid out; any other base gives the error text |
| NumberFormat.SignedIntToString | src/format_formatters.cpp:438-453 | Every signed value of 8 to 64 bits, the most negative included, is rendered with its true magnitude |
| NumberFormat.IntegerTextIsInjective | src/format_formatters.cpp:404-453 | Under the same options different integers have different natural texts |
| IntegerText.IntegerReads | src/format_formatters.cpp:404-426 | In any base and with any options the text opens with -, + or a space exactly when the value is negative, + is asked for, or a space is; its letters are of the case of the type; and behind sign and prefix are digits that read as the magnitude, with no zero in front |
| IntegerText.AlternateFormIsLiteral | src/format_formatters.cpp:56-83 | From specification to value: parsing any specification with an integer type and # gives options under which the text of any number, behind its sign, is a C++ literal of that number ([lex.icon] of C++20) |
| FloatFormat.QuantaAreInjective | src/format_formatters.cpp:302-305 | A double is determined by its value: significand and exponent are read off it uniquely |
| FloatFormat.SplitIsExact | src/format_formatters.cpp:287-288 | Integer part and fraction add up to the double exactly, and the fraction is itself a double below one |
| FloatFormat.WholeIsADouble | src/format_formatters.cpp:287-288 | The integer part is exactly a double, so converting it loses nothing |
| FloatFormat.RoundsToNearest | src/format_formatters.cpp:318-322 | The reference rounding is to nearest, and to the even neighbour on a tie (roundTiesToEven, section 4.3.1 of IEEE 754-2008) |
| FloatFormat.RoundedByParts | src/format_formatters.cpp:290-336 | Integer part, 128-bit scaled fraction and the tie test on the last digit give the value rounded half to even; the product stays below 2^117 |
| FloatFormat.TinyFraction | src/format_formatters.cpp:325 | For e of 128 or more the scaled fraction is below one half, so rounding to zero agrees |
| FloatFormat.ScaleFraction | src/format_formatters.cpp:307-326 | Decimals and rounding direction are those of the exact quotient and remainder, in both branches of e < 128 |
| FloatFormat.Carry | src/format_formatters.cpp:328-335 | Rounding up adds one unit in the last place, carrying into the integer part |
| FloatFormat.ComputeDecimals | src/format_formatters.cpp:276-335 | For every finite double below 2^64 and every precision, units and decimals are the value rounded half to even at min(precision, 19) decimals, and neither overflows 64 bits |
| FloatFormat.PaddedDigit | src/format_formatters.cpp:344-347 | The digit the loop takes for each place is that digit of the zero-padded decimals |
| FloatFormat.RenderFloat | src/format_formatters.cpp:337-347 | Units, point and decimals fit the digits array and are the text that FloatReadsBack reads |
| FloatFormat.FloatReadsBack | src/format_formatters.cpp:337-350 | Character by character: with a precision the text is digits w, a point, and that many digits; w and the number f in the first k = min(precision, 19) of them make the value rounded half to even, w * 10^k + f, and the rest are zeros; without one there is no point and the digits are the rounded value |
| FloatFormat.NotFiniteReads | src/format_formatters.cpp:240-267 | Infinity and NaN are inf and nan behind the sign, with spaces in front where a number would be filled with zeros |
| FloatFormat.FloatToString | src/format_formatters.cpp:231-350 | NaN, infinity and every double below 2^64 are laid out with the text that FloatReadsBack and NotFiniteReads describe |
| FormatSpec.RoundTrip | src/format.cpp:196-354 | Whatever argument id is in front, parsing the text of any specification, with or without each option, 0 beside an alignment and any type included, width from 1 and precision from 0 up to 4294967289, gives back exactly its options ([format.string.std] of C++20); without a colon all options are unset |
| FormatSpec.AlignmentRefused | src/format.cpp:115-167 | An alignment that is neither first nor second is refused, and so is an opening brace as fill |
| FormatSpec.DigitRun | src/format.cpp:286-332 | A run of digits is read as its value, leading zeros included, or rejected when that exceeds 4294967289; it never wraps |
| FormatSpec.LargerIsRejected | src/format.cpp:291-296 | Every width or precision above 4294967289 is rejected |
| FormatSpec.PrintFits | src/format.cpp:362-421 | Every specification fits the 32-character buffer that replacement fields are copied to |
| FormatParser.ParseAlignmentAndFill | src/format.cpp:115-167 | Reads fill and alignment as specified, and rejects an opening brace as fill or a stray alignment character |
| FormatParser.ReadDigits | src/format.cpp:286-300 | The digit loop reads what the specification reads, and every value it builds fits 32 bits |
| FormatParser.ParseArgFormatString | src/format.cpp:196-354 | Accepts exactly the fields the specification accepts, with the same options |
| BraceFormat.ParseArgId | src/format.cpp:15-64 | Accepts exactly an empty id or a number it can hold, and returns that number |
| FormatPieces.ArgIdNames | src/format.cpp:15-64 | A decimal numeral names its value, leading zeros and all, or is refused above 4294967289; nothing in front of the colon, or nothing at all, is no id |
| FormatPieces.BadIdIsReported | src/format.cpp:427-437 | An id with any other character is reported with the text of its placeholder, and the scan goes on |
| FormatPieces.PiecesThenRest | src/format.cpp:360-451 | The first pieces of a format - literal text with its braces doubled, placeholders without and with a number - give their meanings in order and leave the rest of it as it was, with the next unnumbered placeholder taking the argument after theirs |
| FormatPieces.FormatMeans | src/format.cpp:360-451 | A format means its pieces: literals are themselves, the j-th unnumbered placeholder takes argument j, a numbered one its own, a position that is not there gives the range text; an opening brace at the end, or a placeholder never closed, adds nothing |
| BraceFormat.EscapeRoundTrip | src/format.cpp:360-451 | A text with its braces doubled, formatted with any arguments, is the text again |
| BraceFormat.EscapeIsNulFree | src/format.cpp:360-370 | Escaped text has a NUL exactly when the text has one |
| BraceFormat.FormatEscaped | src/format.cpp:360-452 | End to end: the scan of the escaped form of a NUL-free text writes the text to the buffer |
| BraceFormat.LiteralRoundTrip | src/format.cpp:376-386 | Text without opening braces comes back from its escaped form |
| BraceFormat.Strcspn | src/format.cpp:374 | The scan finds the next brace, or the terminator, and never reads past it |
| BraceFormat.AppendLiteral | src/format.cpp:376-386 | Appends the literal text with each doubled closing brace halved |
| BraceFormat.BuildFormatOutput | src/format.cpp:360-452 | For every NUL-free format string the scan ends, stays within the terminator, and appends exactly the output that FormatMeans describes |

## Left out

- Memory orderings weaker than sequential consistency; fences are taken as ordering already given.
- The width of ABA counters: the tagged stacks are atomic push, pop and steal-all.  The headers of the stacks, the
  tagged pointers, the bitmap set and the strings are not part of this model.
- Which CPU shard and address bin a block goes to: the bins of a class are one set, and a steal may take any part of the
  pending records.  A thread may open a maintenance window at any point of its call and a search may miss; both allow
  more runs than the code.
- The word a newly grown record finds in memory, left by an earlier record or by anything else, is arbitrary but for one
  thing: it does not say that some block is IN_USE or AVAILABLE.  The same is taken of a record that was trimmed after its
  index was checked, by a free or by a walk (`include/__memory_resource/lockfree_single_arena_resource.h:1390-1400` and
  `1519-1537`).  Nothing in the code checks this.
- ArenaSafety.LiveBlocksAreSafe: and every theorem about reachable states of the single arena, holds for orderly runs, and
  by ArenaCarefulClient.CarefulIsOrderly for every run of a careful client.  Orderly runs also include some frees a careful
  client does not make: of addresses that never were blocks, and second frees while no allocation of the address is in
  flight.  These are refused while the block is not live, and free the new allocation once the address has been given out
  again.
- ArenaProgress.AllocatesAtFrontier: and the other theorems of progress are about a thread that runs on its own while the
  others stand still; progress of the retry and undo loops under contention needs a fair scheduler and is not proved.
- ArenaVersions.StaleFreeIsRefused: is about a record that stays below the count; one that a trim discards and a growth
  brings back starts with whatever version its memory holds.
- ArenaReclamation.SpaceComesBack: says nothing of how many records are left below the count: those that a walk has left
  in a bin as FRONTIER_RECLAIMED keep their place until a search pops them.
- Loads of memory that only the loading thread can change are merged with the action that uses them.
- The number in pending_shards_.count_, interrupt guards, back-off, failure hooks, extended statistics, requested_size_
  and the alignment field, none of which the properties depend on.
- The constructor of the single arena: metadataStart and the managers' number are arbitrary.
- StaticArenaResource.Resource.Deallocate: the client passes a size with the same block size as it allocated, as the
  source demands; alignment is not used by the source.
- StaticArenaSafety.RunHolds: and the other theorems of the concurrent static arena are about clients that free only blocks
  they have, each once; the code does not detect a second free.
- StaticArenaSafety.PiecesPartition: current_ptr_ starts aligned, as the constructor leaves it, so the alignment step
  before the bump never moves it.
- BitBlockSafety.RunHolds: and the other theorems of the bit-block allocator are about clients that free only allocations
  they have, each once; the code does not detect a second free.
- BitBlockProgress.MeetsRequest: which of several clear runs is taken is left open.
- BitBlockSafety.FreeCountIsExact: acquiring and releasing a run of bits are atomic, as the bitmap's interface promises;
  hints and the order of the search are arbitrary.
- Statistics.RunBalances: totals are unbounded integers; a total that passes 2^64 is not modelled.
- Statistics.SnapshotErrsHigh: the peak under several contexts, which the source does not promise to be exact.
- UniformInt.DrawIsUniform: counts sequences of outputs; that an engine's sequences are equally likely is about the
  engine.
- FloatFormat.FloatToString: magnitudes of 2^64 and above, which the source documents as approximate.
- A dynamic string that cannot grow; strings are sequences that keep what fits their capacity.
- BraceFormat.BuildFormatOutput: how an argument renders itself is arbitrary.
- FormatPieces.FormatMeans: is about placeholders that fit the 32-character buffer; of a longer one the first 32
  characters are taken.
- The other memory resources, composite routing, string formatting, and the random engines.
