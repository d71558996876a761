# Verified model of the flash translation layers

The repository holds several flash translation layers. Each keeps a fast, compressed or log-structured form that has to
agree with one simple thing: who owns an lba, where it was written last, what was written there last. This project
models six of those components in Dafny and proves that agreement for every input and every run. Sizes
(`SC_PER_DIR`, `L2PGAP`, `_PPS`, `_PPB`, `MAPINTRANS`, `QDEPTH`, `QSIZE`, the number of runs and of groups) are symbolic
throughout.

`dafny verify dfyconfig.toml` checks everything.

## What is modelled

**Shortcut directories** (`ShortcutDir.dfy`, `ShortcutMaster.dfy`, `ShortcutHistory.dfy`). The `SC_MEM_OPT` and
`SC_QUERY_DP` build keeps the owner of every lba as a bitmap of run heads and a packed table, edited in place by split,
merge and shift, with incremental cursors and a bulk link on top. The specification is the flat `sc_map` of the other build
together with the counters of the slots (`Books`). `ShortcutHistory.Execute` is the first main result: any list of links,
unlinks, bulk links, check-and-links, whole-block moves, releases and queries, with cursors opened, asked and closed
anywhere in it, answers and ends as the same list on the flat array. `ShortcutHistory.CountersInUse` is the second: while a
slot is in use, linked minus unlinked differs from the number of lbas it owns by exactly the stale entries that whole moves
carried to it.

**Page FTL** (`FlashMap.dfy`, `FlashSegments.dfy`, `PageFtl.dfy`). Align buffer, mapping table, valid bits, out-of-band
reverse map, segment counters and garbage collection into a reserve segment. `PageFtl.Ftl.Serve` is the main result: any
list of requests answers as a map of the values written last, with collections wherever they fall, read-backs completing
in any order. A run stops only at a write that fills the buffer while the victim of a collection leaves no page
(`Stuck`); up to there it has answered right, and the device is left as the collection left it, with nothing lost. With
enough spare segments (`Roomy`) that never happens.

**Run merge** (`SummarySearch.dfy`, `MergeSpec.dfy`, `ReadFlag.dfy`, `RunMerge.dfy`, `LogMerge.dfy`,
`MergeShortcut.dfy`). The k-way merge of sorted runs with its validity checks, rounds and their 32-bit read flag,
marking of disjoint blocks and moves of whole blocks. `RunMerge.RunMerge` is the main result: the entries linked to the target run, copied or in blocks moved whole, have
strictly increasing lbas, exactly those with a copy that passes, each from the newest such run, and the shortcut gives
exactly those to the target. A block that is moved whole keeps its stale entries; `RunMerge.LaterCheckIff` says that a later
merge passes exactly those of its entries that were linked and that no newer run has taken since.
`MergeShortcut.MergeOnShortcut` joins the merge with the directories: every round is a bulk link and every moved block a
checked move, the owners come out as on the flat map, and the counters of the target fall behind by exactly the stale
entries carried. `LogMerge.MergeLog` is the merge of one log run, whose blocks may overlap each other, and says exactly
when its cursor divides by zero.

**LeaFTL index** (`LeaSegment.dfy`, `LeaLevel.dfy`, `LeaPush.dfy`, `LeaGroup.dfy`, `LeaCut.dfy`, `LeaOneLevel.dfy`,
`LeaCache.dfy`). Segments, the stack of levels, the flat last-writer array, segment cutting, the translation of a mapping
page into one level, and the group LRU with its byte accounting. `LeaGroup.Replay` and `LeaCache.Serve` are the main
results: any insertions, each of which caches its group first, with groups evicted and read back anywhere in between,
leave the count of cached bytes exact and the last writer of every lba in place. Approximate segments take part in levels, bytes and cutting; what they predict does
not.

**Sorted table writer** (`TableSpec.dfy`, `SortedTable.dfy`, `LogTable.dfy`). The page buffer, three write pointers,
block allocation, padding and summary writes of a normal run. Every method keeps the ghost log of what was inserted
readable, and `SortedTable.EveryEntryReadable` reads it back by block and offset. `SortedTable.Fill` is the whole run: from
an empty table, any inserts and paddings, up to the one that closes the last block, leave every flushed entry at the
address its offset translates to. `LogTable` adds the map of a log run: exactly the last entries of the lbas are valid, and
`LogTable.FillAndQuery` says when a query finds them.

**Request credits and shared reads** (`Credits.dfy`, `LinkedQueue.dfy`, `SharedReads.dfy`). The critical sections as steps
in any interleaving: conservation of credits, no deadlock, end of every vector exactly once under every schedule
(`Credits.EveryScheduleEnds`), one device read per page in flight, every waiter answered once with its own piece of the
version the device read. `SharedReads.ReadBuffer.Execute` covers any interleaving, with pages programmed anew anywhere in
it, and `SharedReads.StaleIff` says, by what is visible when a read arrives, exactly which reads get a former version.

`Layout.dfy` holds the arithmetic of equal blocks laid out one after the other.

## Where the code and its intent differ

- `shortcut_unlink_lba` tests the owner in the `SC_MEM_OPT` build, but the `if` guards an empty statement
  (algorithm/layeredLSM/shortcut.cpp:149), so an unassigned lba is charged too. `UnlinkKeepsExcessIff` and
  `LinkKeepsExcessIff` say exactly when the counters stay honest; `PlainLinkMiscounts` and `EmptyUnlinkMiscounts` are inputs
  where they do not.
- `page_remove` returns before it trims (algorithm/Page_ftl/page.c:224-226): a removed lba is still readable.
  `PageFtl.Request` follows the code.
- A block that is moved whole counts its stale entries as unlinked at the target, which never linked them
  (algorithm/layeredLSM/run_merge.cpp:431-434): `CountersInUse`, `StaleMoveMiscounts`. A slot that is given back while it still
  owns lbas starts over with a wrong count: `FreedSlotHonestIff`.
- Runs are told apart by a 32-bit flag (algorithm/layeredLSM/run_merge.cpp:498, 527). With 32 runs or more that flag
  never shows the end of a round: `MaskExactIff`, `EndIsSeenIff`. And with more runs than four segments have blocks a round has no blocks at all,
  so the merge does not end: `StepIsZeroIff`, `EmptyPass`, `Spin`.
- The cursor of a log run divides by its entries per block (algorithm/layeredLSM/summary_page_set.cpp:40, 180), which is 0 when
  the run was overwritten so often that it has fewer lbas than blocks: `MergeLog` crashes exactly when there are also at
  least two lbas, at the first step of its cursor; `OverwrittenLogDividesByZero` is such a run.
- A query of a log run takes the first match in the page buffer (algorithm/layeredLSM/page_aligner.cpp:34-41), so of
  several values of one lba in the buffer the oldest one is read: `Shadowed`, `OlderValueRead`.
- A collection whose victim is nearly full of valid pieces leaves no page, and the next one is taken from a null segment
  (algorithm/Page_ftl/gc.c:205-214): `Stuck`, `SecondWriteFails`.
- A read gets a former version exactly when, as it arrives, the device already has its page in a version that is not the
  last one (algorithm/Page_ftl/page.c:96-105): `StaleIff`, `LateWaiterIsStale`.
- The scan `spm_joint_check_debug` without a block to skip stops at the first block beyond the target
  (algorithm/layeredLSM/summary_page.h:113-130) and overlooks overlaps in a run whose blocks are not in order:
  `ScanMissesIff`, `UnorderedScanMisses`.
- In `lea_making_segment_per_gp` the interval kept after a break is a mark no interval equals
  (algorithm/leaFTL/leaFTL.cc:471-473), so at most two pieces come out: `Cuts`, `CutsCover`.
- `map_to_onelevel` drops a run whose last address is the one before `INITIAL_STATE_PADDR` when an unmapped entry follows
  (the difference of the two is 1), and emits nothing for a page of one entry: `Translatable`, `UntranslatablePages`.
  Pages of more entries with addresses of a real device read back: `RealPagesTranslatable`.
- The level search never answers with an approximate segment, because its CRB stays empty (algorithm/leaFTL/CRB.cc:157-161):
  `SearchIsListIff`, `ApproximateIsMissed`.
- Requests are taken to be drained when `flying_cnt` is back at `QDEPTH`; end of a vector may still be outstanding
  then: `IdleIff`, `IdleBeforeEnd`.

## Model

| member | source | states |
|---|---|---|
| ShortcutCodec.RankIsPackedLength | algorithm/layeredLSM/shortcut_dir.cpp:105-110 | the number of set bits below an offset is the length of the packed table of the owners below it |
| ShortcutCodec.PackedOwner | algorithm/layeredLSM/shortcut_dir.cpp:152-161 | the table entry selected by the rank of an offset is that offset's owner |
| ShortcutCodec.OverwriteSplit | algorithm/layeredLSM/shortcut_dir.cpp:55-99 | overwriting one owner changes the packed table only in the entries that the offset and its successor start |
| ShortcutCodec.RepresentationIsCanonical | algorithm/layeredLSM/shortcut_dir.cpp:35-42 | every directory has bit 0 set, as many set bits as table entries, adjacent entries different, and its query reads the flat array |
| ShortcutCodec.BitIsOwnerChange | algorithm/layeredLSM/shortcut_dir.cpp:55-103 | in canonical form a bit is set exactly where the queried owner changes |
| ShortcutCodec.CanonicalFormIsUnique | algorithm/layeredLSM/shortcut_dir.h:53-55 | equal contents have the same bitmap and table, so memory use is a function of the contents, whatever the insert order |
| ShortcutCodec.CanonicalRepresents | algorithm/layeredLSM/shortcut_dir.cpp:35-42 | conversely, every canonical pair represents exactly what it answers |
| ShortcutCodec.LinkAllEffect | algorithm/layeredLSM/shortcut.cpp:130-143 | a bulk link changes exactly the listed owners, adds its length to linked, and keeps linked minus unlinked minus owned of every slot |
| ShortcutCodec.LinkKeepsExcessIff | algorithm/layeredLSM/shortcut.cpp:76-94 | a plain link keeps the counters honest exactly when the lba had no owner |
| ShortcutCodec.PlainLinkMiscounts | algorithm/layeredLSM/shortcut.cpp:76-94 | a link of an owned lba after which its former owner is one link ahead |
| ShortcutCodec.UnlinkKeepsExcessIff | algorithm/layeredLSM/shortcut.cpp:147-168 | an unlink keeps the counters honest exactly when the charged slot owned the lba |
| ShortcutCodec.EmptyUnlinkMiscounts | algorithm/layeredLSM/shortcut.cpp:147-168 | an unlink of an unassigned lba after which the charged slot is one unlink ahead |
| ShortcutDir.Directory.constructor | algorithm/layeredLSM/shortcut_dir.cpp:35-42 | a new directory represents nothing assigned, with one table entry |
| ShortcutDir.Directory.TableErase | algorithm/layeredLSM/shortcut_dir.cpp:19-33 | exactly the entry is gone, although the buffer shrinks before the shift |
| ShortcutDir.Directory.CompressNext | algorithm/layeredLSM/shortcut_dir.cpp:61-78 | the successor's entry and bit are as the overwritten owners require |
| ShortcutDir.Directory.CompressPrevious | algorithm/layeredLSM/shortcut_dir.cpp:79-99 | the offset's entry and bit are as the overwritten owners require |
| ShortcutDir.Directory.CompressionTarget | algorithm/layeredLSM/shortcut_dir.cpp:55-103 | split, merge and shift together store one owner in the flat array and touch no bit but the offset's and its successor's |
| ShortcutDir.Directory.TableIndex | algorithm/layeredLSM/shortcut_dir.cpp:152-161 | the counting loop finds the entry of the offset's owner |
| ShortcutDir.Directory.QueryLba | algorithm/layeredLSM/shortcut_dir.cpp:152-161 | the query returns the owner in the flat array |
| ShortcutDir.Directory.InsertLba | algorithm/layeredLSM/shortcut_dir.cpp:104-112 | the insert stores the owner in the flat array and nowhere else |
| ShortcutDir.Directory.LinkNext | algorithm/layeredLSM/shortcut_dir.cpp:225-257 | one round of the bulk insert links one offset and carries the right table index on |
| ShortcutDir.Directory.InsertLbas | algorithm/layeredLSM/shortcut_dir.cpp:220-258 | the bulk insert of a directory's lbas is the fold of the single link over them, and stops at the first lba of another directory |
| ShortcutMaster.DirectoryLinkAll | algorithm/layeredLSM/shortcut.cpp:99-127 | linking inside a directory is linking in the whole: its window follows, every other directory's slice stays |
| ShortcutMaster.Master.constructor | algorithm/layeredLSM/shortcut.cpp:9-38 | the directories represent an unassigned flat array and the memory count is right |
| ShortcutMaster.Master.Flag | algorithm/layeredLSM/shortcut_dir.cpp:127-135 | every cursor of the directory at or behind the offset is told to start over, none is cleared |
| ShortcutMaster.Master.StoreOwner | algorithm/layeredLSM/shortcut.cpp:84-86 | one directory changes, its memory is accounted for, all directories represent the updated flat array |
| ShortcutMaster.Master.InsertLba | algorithm/layeredLSM/shortcut_dir.cpp:104-138 | the owner is stored, and every cursor not flagged still has the rank of its offset minus one |
| ShortcutMaster.Master.LinkLba | algorithm/layeredLSM/shortcut.cpp:76-94 | a link is the link of the flat form, counters and memory use included |
| ShortcutMaster.Master.UnlinkLba | algorithm/layeredLSM/shortcut.cpp:147-168 | an unlink is the unlink of the flat form, without the early return the other build has |
| ShortcutMaster.Master.Query | algorithm/layeredLSM/shortcut.cpp:170-188 | the owner in the flat array |
| ShortcutMaster.Master.Reinit | algorithm/layeredLSM/shortcut_dir.cpp:162-186 | the cursor stands at the head of the directory and is registered there once |
| ShortcutMaster.Master.GetSc | algorithm/layeredLSM/shortcut_dir.cpp:195-218 | a cursor lookup returns the owner in the flat array |
| ShortcutMaster.Master.StoreOwners | algorithm/layeredLSM/shortcut.cpp:104-124 | a bulk insert into one directory links a non-empty stretch of the list in the whole |
| ShortcutMaster.Master.BulkRound | algorithm/layeredLSM/shortcut.cpp:101-127 | one round makes progress and keeps all cursors sound |
| ShortcutMaster.Master.LinkBulk | algorithm/layeredLSM/shortcut.cpp:96-146 | the bulk link of a non-empty increasing list terminates and is the fold of the single link over it |
| ShortcutMaster.Master.NewCursor | algorithm/layeredLSM/shortcut_dir.cpp:188-193 | a new cursor is registered and sound |
| ShortcutMaster.Master.FreeCursor | algorithm/layeredLSM/shortcut_dir.cpp:270-280 | exactly this cursor is gone |
| ShortcutMaster.Master.CheckAndLink | algorithm/layeredLSM/shortcut.cpp:342-375 | the lba is taken exactly when its owner is absent, compacting or not newer, with the loss charged to a former owner that has a run |
| ShortcutMaster.KeptIsIncreasing | algorithm/layeredLSM/run_merge.cpp:418-460 | of a block moved whole exactly the lbas that no newer run owns are kept, in order |
| ShortcutMaster.Master.WholeMove | algorithm/layeredLSM/run_merge.cpp:413-467 | the kept lbas are linked, counting the loss of their owners, and the others only counted as unlinked at the target |
| ShortcutMaster.Master.Release | algorithm/layeredLSM/shortcut.cpp:320-325 | the counters of exactly this slot start over |
| ShortcutHistory.Perform | algorithm/layeredLSM/shortcut.cpp:76-375 | one operation changes and answers as on the flat form, and the open cursors stay sound |
| ShortcutHistory.Execute | algorithm/layeredLSM/shortcut_dir.cpp:104-280 | any list of operations, with cursors opened, asked and closed in it, changes and answers as on the flat array: the last owner written at each offset, and no other offset changes |
| ShortcutHistory.ExcessIsDrift | algorithm/layeredLSM/shortcut.cpp:76-375 | over any run, how far linked minus unlinked of a slot is from the lbas it owns |
| ShortcutHistory.CountersInUse | algorithm/layeredLSM/run_merge.cpp:427-437 | while a slot is in use that distance grows by exactly the stale entries carried in by whole moves, and stays the same exactly when there were none |
| ShortcutHistory.CountersFromStart | algorithm/layeredLSM/shortcut.cpp:96-168 | from an empty shortcut on, linked minus unlinked plus those entries is the number of lbas a slot in use owns |
| ShortcutHistory.FreedSlotHonestIff | algorithm/layeredLSM/shortcut.cpp:320-325 | a slot given back starts over with honest counters exactly when it owns nothing any more |
| ShortcutHistory.StaleMoveMiscounts | algorithm/layeredLSM/run_merge.cpp:431-434 | a whole move after which the target has one lba, one link and one unlink |
| FlashMap.ValidIffMappedOnce | algorithm/Page_ftl/gc.c:11-24 | in a consistent device a piece is valid exactly when some lba maps to it, and then its out-of-band slot names that one lba |
| FlashMap.AssignStep | algorithm/Page_ftl/map.c:26-39 | invalidating the former piece and mapping the new one moves the device one lba further through the assignment |
| FlashMap.ValidateFresh | algorithm/Page_ftl/gc.c:16-24 | validating a fresh page starts an assignment |
| FlashMap.ProgramEffect | algorithm/Page_ftl/page.c:186-203 | after assignment and program the device is consistent, the page's lbas read the new data, all others as before |
| FlashMap.RemapEffect | algorithm/Page_ftl/map.c:66-92 | the mapping loop of a collection maps exactly the given lbas to consecutive pieces |
| FlashMap.FlushStep | algorithm/Page_ftl/gc.c:167-172 | writing the gather buffer to the next reserve page moves its pieces on and disturbs nothing else |
| FlashMap.TrimEffect | algorithm/Page_ftl/gc.c:189-192 | once every valid piece of the victim has moved, erasing it keeps the device consistent and every lba's value |
| FlashSegments.SegsStore | blockmanager/sequential/seq_block_manager.c:238-274 | a bit change keeps the segment counters equal to the bits they count |
| FlashSegments.SegsErase | blockmanager/sequential/seq_block_manager.c:218-236 | erasing a segment keeps all counters right |
| FlashSegments.ValidAtMostRange | algorithm/Page_ftl/map.c:21-42 | a consistent device has at most as many valid pieces as lbas |
| FlashSegments.VictimLeavesAPage | algorithm/Page_ftl/gc.c:121-124 | with enough spare segments the victim with most invalid pieces has at least a page of them |
| FlashSegments.SettingsAreRoomy | include/settings.h:20-59 | the repository's own sizes (32 GiB shown, 281 segments of 128*64 pages) leave the spare space that the never-crashing claim asks for |
| FlashSegments.Job.ReserveHasRoom | algorithm/Page_ftl/gc.c:154-187 | a non-empty gather buffer always finds a page in the reserve |
| FlashSegments.Job.GatheredCount | algorithm/Page_ftl/gc.c:135-180 | as many pieces are gathered as the victim has valid ones |
| FlashSegments.Job.DoneWhenGathered | algorithm/Page_ftl/gc.c:135-192 | conservation: the valid pieces of the victim, each once, are exactly what the reserve holds, in as few pages as they fit in |
| PageFtl.Ftl.constructor | algorithm/Page_ftl/map.c:9-19 | an empty device: every lba reads as not found |
| PageFtl.Ftl.BitSet | blockmanager/sequential/seq_block_manager.c:238-253 | exactly the piece's bit and its segment's valid count change |
| PageFtl.Ftl.BitUnset | blockmanager/sequential/seq_block_manager.c:255-273 | exactly the piece's bit is cleared and the counters stay exact |
| PageFtl.Ftl.GetPage | blockmanager/sequential/seq_block_manager.c:135-157 | the next page of the segment, or none when it is full |
| PageFtl.Ftl.Validate | algorithm/Page_ftl/gc.c:16-24 | the page's bits are set and its out-of-band area names the lbas |
| PageFtl.Ftl.Flush | algorithm/Page_ftl/gc.c:168-171 | one page of gathered pieces is mapped, validated and programmed in the reserve |
| PageFtl.Ftl.GatherPiece | algorithm/Page_ftl/gc.c:160-173 | a valid piece enters the gather buffer, which is written out when it holds a page |
| PageFtl.Ftl.PagesToRead | algorithm/Page_ftl/gc.c:135-149 | exactly the pages with a valid piece are read back |
| PageFtl.Ftl.CopyLive | algorithm/Page_ftl/gc.c:151-187 | whatever the order of completions, the valid pieces of the victim end up in the reserve, each once |
| PageFtl.Ftl.PickVictim | algorithm/Page_ftl/gc.c:123-123 | the victim has the most invalid pieces of all candidates |
| PageFtl.Ftl.Erase | blockmanager/sequential/seq_block_manager.c:218-236 | exactly the segment's bits and counters are cleared |
| PageFtl.Ftl.Reclaim | algorithm/Page_ftl/gc.c:121-189 | the collection keeps the device consistent and every lba's value, and conserves the victim's pieces |
| PageFtl.Ftl.Gc | algorithm/Page_ftl/gc.c:121-195 | reserve and victim change roles, every lba reads as before, and with enough spare space the new active segment has a free page |
| PageFtl.Ftl.TakePage | algorithm/Page_ftl/gc.c:198-215 | a fresh page of unset bits; none exactly when the active segment is full, none is free, and the victim, one with the most invalid pieces, has more live pieces than all but one page hold |
| PageFtl.Ftl.GetPpa | algorithm/Page_ftl/gc.c:198-220 | the page is validated for the lbas and no value was lost on the way |
| PageFtl.Ftl.AssignAll | algorithm/Page_ftl/map.c:21-42 | the mapping loop ends the assignment and changes no other lba |
| PageFtl.Ftl.WriteOut | algorithm/Page_ftl/page.c:182-204 | a full buffer goes to flash: its lbas read the new data, all others as before |
| PageFtl.Ftl.PutInBuffer | algorithm/Page_ftl/page.c:152-180 | the key has the new value in the buffer, once, all others as before |
| PageFtl.Ftl.Write | algorithm/Page_ftl/page.c:207-222 | only the written lba changes its value; fails exactly when it fills the buffer and the victim leaves no page |
| PageFtl.Ftl.Read | algorithm/Page_ftl/page.c:122-150 | the value in the buffer, else on flash, else not found |
| PageFtl.Ftl.TrimLba | algorithm/Page_ftl/map.c:52-64 | exactly the trimmed lba becomes unmapped and the invariants stay |
| PageFtl.Ftl.ServeOne | algorithm/Page_ftl/page.c:122-226 | a request answers and acts as on the map of values written last, and fails exactly when it is a write that fills the buffer while the victim leaves no page; the device is then the collected one with the write in its full buffer |
| PageFtl.Ftl.Serve | algorithm/Page_ftl/page.c:122-226 | any list of requests answers as a map of the values written last, up to the first write that fills the buffer while the victim leaves no page, whose collection is the state left; with enough spare space to the end |
| PageFtl.TinyIsStuck | algorithm/Page_ftl/gc.c:198-215 | a device of two one-piece segments is stuck once an lba was written |
| PageFtl.SecondWriteFails | algorithm/Page_ftl/gc.c:205-214 | one lba written twice on such a device: the second write meets the null segment |
| SummarySearch.FindTargetIdx | algorithm/layeredLSM/summary_page.h:69-87 | the block whose range has the lba, or none exactly when there is none |
| SummarySearch.JointCheck | algorithm/layeredLSM/summary_page.h:89-111 | an overlapping block, or none exactly when there is none |
| SummarySearch.JointScan | algorithm/layeredLSM/summary_page.h:113-130 | an overlapping block other than the skipped one; none exactly when every such block lies behind the point where a scan that skips none gives up |
| SummarySearch.ScanMissesIff | algorithm/layeredLSM/summary_page.h:113-130 | the scan finds nothing exactly when every overlapping block lies behind a block that made it stop |
| SummarySearch.UnorderedScanMisses | algorithm/layeredLSM/summary_page.h:123-127 | an overlap that the scan overlooks |
| SummarySearch.OrderedScanComplete | algorithm/layeredLSM/run_merge.cpp:350-356 | on an ordered run the scan is complete |
| SummarySearch.MarkLog | algorithm/layeredLSM/run_merge.cpp:322-374 | of a single log run exactly the movable blocks that overlap no other block are marked |
| MergeSpec.Emit | algorithm/layeredLSM/run_merge.cpp:67-98 | emitting the smallest head of the lowest run and passing every head with its lba keeps the merge on its way to the specification |
| MergeSpec.DropStale | algorithm/layeredLSM/run_merge.cpp:128-173 | dropping a head that fails its check keeps it too |
| MergeSpec.MergeComplete | algorithm/layeredLSM/run_merge.cpp:710-717 | with nothing left the output is the merge: increasing, from the newest run whose copy passes, complete |
| MergeSpec.LiveOfExact | algorithm/layeredLSM/run_merge.cpp:418-437 | of a block's entries exactly those that pass are linked |
| MergeSpec.Link | algorithm/layeredLSM/run_merge.cpp:266-308 | exactly the lbas of the entries belong to the target |
| RunMerge.Cursor.MoveDropsHead | algorithm/layeredLSM/run_merge.cpp:57-65 | moving a cursor delivers exactly its head, across block ends |
| RunMerge.BlocksOrdered | algorithm/layeredLSM/summary_page_set.cpp:153-171 | the blocks of a sorted run are sorted, in order and apart |
| RunMerge.MinHead | algorithm/layeredLSM/run_merge.cpp:109-127 | the lowest-indexed cursor with the smallest head |
| RunMerge.PickSmallest | algorithm/layeredLSM/run_merge.cpp:100-175 | heads that fail their checks are dropped until the smallest one passes; terminates on the entries left |
| RunMerge.MoveIter | algorithm/layeredLSM/run_merge.cpp:67-98 | exactly the cursors at the emitted lba move on, and a full flag means that the round is over |
| ReadFlag.MaskExactIff | algorithm/layeredLSM/run_merge.cpp:498-498 | comparing the flag with the mask tells whether all runs are through exactly for fewer than 32 runs |
| ReadFlag.MaskValue | algorithm/layeredLSM/run_merge.cpp:527-527 | the mask is the number 2^n - 1 |
| RunMerge.SetReadFlag | algorithm/layeredLSM/run_merge.cpp:22-30 | the flag equals the mask exactly when every cursor is done or at the end of the round |
| RunMerge.EndIsSeenIff | algorithm/layeredLSM/run_merge.cpp:495-527 | with every cursor done, sorting ends exactly with fewer than 32 runs |
| RunMerge.SortRound | algorithm/layeredLSM/run_merge.cpp:486-530 | a round emits what the specification emits, or stops at a block ready to be moved; the flag is taken at the top of the loop, so one that is over from the start does nothing |
| RunMerge.CheckDisjoint | algorithm/layeredLSM/run_merge.cpp:322-376 | exactly the movable blocks that overlap no block of another run are marked, in order |
| RunMerge.MoveIsAlone | algorithm/layeredLSM/run_merge.cpp:503-511 | when the smallest head starts a marked block, every other cursor lies beyond the block's end |
| RunMerge.TrivialMove | algorithm/layeredLSM/run_merge.cpp:387-474 | the block is handed over with all its pairs, flagged exactly when some are stale, with the level and recency of its run; exactly the entries that copying would have emitted are linked, in the same order |
| RunMerge.Pass | algorithm/layeredLSM/run_merge.cpp:692-707 | one pass makes progress or finishes its round, and keeps ownership in step with the output; one whose round is over from the start changes nothing |
| RunMerge.StepIsZeroIff | algorithm/layeredLSM/run_merge.cpp:696-696 | a round has no blocks exactly when more runs than blocks of four segments are merged without force |
| RunMerge.EmptyPass | algorithm/layeredLSM/run_merge.cpp:695-717 | then a pass hands over nothing, moves no cursor, changes no owner, and finds the merge done exactly when it was before |
| RunMerge.Spin | algorithm/layeredLSM/run_merge.cpp:695-717 | so as many passes as one likes can be made, and every cursor is still at its first entry |
| RunMerge.StaleIsNotEmitted | algorithm/layeredLSM/run_merge.cpp:431-434 | for a stale entry in a block moved whole no run of the merge had a copy to emit |
| RunMerge.LaterCheckIff | algorithm/layeredLSM/run_merge.cpp:132-172 | in a later merge of the target, after any links to newer runs, an entry of such a block passes both checks exactly when it was linked and the target still owns its lba |
| RunMerge.RunMerge | algorithm/layeredLSM/run_merge.cpp:666-735 | for sorted runs, fewer than 32 and with blocks to a round, and any ownership: it terminates, the linked entries are the merge and ownership follows exactly, with or without whole moves |
| MergeShortcut.BlockUntouched | algorithm/layeredLSM/run_merge.cpp:413-437 | a block moved whole finds the owners of its lbas as they were before the merge |
| MergeShortcut.MergeIsHistory | algorithm/layeredLSM/run_merge.cpp:266-308 | the rounds and whole moves of a merge can be performed one by one as operations of the shortcut, each prefix leaving the owners of the entries handed over so far |
| MergeShortcut.HistoryEnds | algorithm/layeredLSM/run_merge.cpp:387-474 | together they leave the owners of the merge; linked minus unlinked of the target falls behind what it owns by exactly the stale entries carried, and of every other slot keeps its distance |
| MergeShortcut.MergeOnShortcut | algorithm/layeredLSM/run_merge.cpp:666-735 | the same on the directories with their cursors, counters and memory count, which stay sound |
| LogMerge.OverwrittenLogDividesByZero | algorithm/layeredLSM/summary_page_set.cpp:178-181 | a log run of two lbas in three blocks, whose merge divides by zero |
| LogMerge.KeptExact | algorithm/layeredLSM/run_merge.cpp:132-149 | exactly the entries of the map that no newer run owns, in strictly increasing order |
| LogMerge.KeptIsMerged | algorithm/layeredLSM/run_merge.cpp:100-175 | those are the merge of the single run |
| LogMerge.LogCursor.Move | algorithm/layeredLSM/summary_page_set.cpp:172-191 | the cursor is one entry further, with its block index in bounds, or it divides by zero, exactly when its entries per block are 0 and the run has more than one entry |
| LogMerge.LogCursor.MoveSte | algorithm/layeredLSM/summary_page_set.cpp:142-150 | from the last entry of a block exactly one entry is passed |
| LogMerge.Stretch | algorithm/layeredLSM/run_merge.cpp:397-405 | the entries of a block that overlaps no other are a stretch of the iteration, which ends at the block's last lba |
| LogMerge.SortRound | algorithm/layeredLSM/run_merge.cpp:486-530 | a round emits exactly the entries that pass, or stops at the start of a marked block |
| LogMerge.TrivialMove | algorithm/layeredLSM/run_merge.cpp:387-474 | all entries of the block and no others are passed; those that pass are linked, in order, and the block is flagged exactly when some do not |
| LogMerge.MergeLog | algorithm/layeredLSM/run_merge.cpp:666-717 | divides by zero exactly when the run has more than one lba and fewer lbas than blocks, before anything is linked; otherwise, with or without whole moves, exactly the entries that copying links are linked, in the same order, and ownership follows |
| LeaSegment.MakesMembers | algorithm/leaFTL/PLR_segment.cc:6-45 | an accurate segment includes exactly the lbas it was made of |
| LeaSegment.AddrExact | algorithm/leaFTL/PLR_segment.cc:62-74 | the address computed for a member is the one it was written to, when the addresses were consecutive |
| LeaSegment.RemovableIsCovered | algorithm/leaFTL/PLR_segment.cc:89-110 | a removable segment's lbas are all answered for by the newer one |
| LeaSegment.RemovableIff | algorithm/leaFTL/PLR_segment.cc:89-110 | removable exactly when covered and either single or of the same interval |
| LeaLevel.LowerBoundWrapper | algorithm/leaFTL/group.cc:122-145 | what lies before the result ends before the start, what lies behind starts after it; not found only when nothing overlaps |
| LeaLevel.GetSegment | algorithm/leaFTL/group.cc:147-188 | the level walk is the newest-first search for the segment that includes the lba |
| LeaLevel.FindOverlap | algorithm/leaFTL/group.cc:276-289 | exactly the overlapping segments, in order |
| LeaLevel.Erase | algorithm/leaFTL/group.cc:374-382 | an overlapped segment is found where it stands: the abort is not reached |
| LeaLevel.Place | algorithm/leaFTL/group.cc:388-398 | the new segment goes where its start belongs |
| LeaLevel.SegmentUpdate | algorithm/leaFTL/group.cc:337-399 | the overlapped segments are replaced by the new one; those not removable go down, in order |
| LeaPush.PushedOk | algorithm/leaFTL/group.cc:401-471 | after every insertion each level is sorted and disjoint |
| LeaPush.NewerIsHigher | algorithm/leaFTL/group.cc:441-468 | of two overlapping live segments the newer is at a strictly higher level |
| LeaPush.PushedNewerAbove | algorithm/leaFTL/group.cc:441-468 | every insertion keeps that order |
| LeaPush.PushedSearch | algorithm/leaFTL/group.cc:147-188 | after an insertion the search answers with the new segment where it includes the lba and as before elsewhere |
| LeaPush.PushedBytes | algorithm/leaFTL/group.cc:419-454 | bytes are conserved: levels after plus freed equals levels before plus the new segment |
| LeaPush.PushedLive | algorithm/leaFTL/group.cc:351-384 | segments are conserved: every one is live or freed afterwards, once |
| LeaGroup.PushedSound | algorithm/leaFTL/group.cc:401-471 | an insertion of either kind keeps levels, order, flat array and freed segments sound |
| LeaGroup.NamesLive | algorithm/leaFTL/group.cc:44-51 | an accurate segment named by the flat array is live and never freed |
| LeaGroup.SearchIsListIff | algorithm/leaFTL/group.cc:147-188 | the level search and the flat array agree exactly where the array does not name an approximate segment |
| LeaGroup.LevelSize | algorithm/leaFTL/group.cc:113-120 | the summing loop gives the bytes of the level |
| LeaGroup.Group.constructor | algorithm/leaFTL/group.cc:53-72 | an empty group of size 0 |
| LeaGroup.Group.List | algorithm/leaFTL/group.cc:44-51 | exactly the lbas of the insertion name the new segment |
| LeaGroup.Group.Insert | algorithm/leaFTL/group.cc:401-471 | the group stays sound, its size stays the bytes of its segments plus 4 per approximate lba, the cache count moves by the same amount, and bytes of live and freed segments together grow by the new segment |
| LeaGroup.Group.InsertAll | algorithm/leaFTL/group.cc:401-471 | after any insertions every lba is named by the last one that has it |
| LeaGroup.Group.Get | algorithm/leaFTL/group.cc:147-188 | both lookups, and when they agree |
| LeaGroup.Group.Store | algorithm/leaFTL/group.cc:773-792 | the levels are put aside unchanged |
| LeaGroup.Group.Load | algorithm/leaFTL/group.cc:760-771 | and come back unchanged |
| LeaGroup.Replay | algorithm/leaFTL/group.cc:147-471 | any sequence of accurate insertions: level search, flat array and last written address agree for every lba, and the array names no freed segment |
| LeaGroup.ApproximateIsMissed | algorithm/leaFTL/group.cc:147-188 | an approximate insertion that the level search does not find and the flat array does |
| LeaCut.CutBatch | algorithm/leaFTL/leaFTL.cc:424-492 | the cutting loop produces the accurate prefix, when it has three lbas, and the rest |
| LeaCut.PrefixMaximal | algorithm/leaFTL/leaFTL.cc:446-452 | the accurate prefix is as long as it can be |
| LeaCut.CutsCover | algorithm/leaFTL/leaFTL.cc:424-492 | at most two pieces, next to each other, covering the batch |
| LeaCut.PiecesOk | algorithm/leaFTL/leaFTL.cc:404-422 | every accurate piece has a constant interval |
| LeaCut.MakeSegments | algorithm/leaFTL/leaFTL.cc:404-492 | the pieces inserted are those of the cuts, fit for insertion, they concatenate to the batch, and every lba of it is named by its piece |
| LeaOneLevel.MapToOneLevel | algorithm/leaFTL/group.cc:487-553 | the level is sorted and disjoint and reads back every entry of the page, mapped or not, exactly when the page is Translatable |
| LeaOneLevel.RunAnswers | algorithm/leaFTL/group.cc:473-484 | a run of consecutive addresses as one segment gives each member its address |
| LeaOneLevel.RealPagesTranslatable | algorithm/leaFTL/group.cc:487-553 | pages of several lbas with addresses below the last before the mark always read back |
| LeaOneLevel.DevicePagesTranslatable | include/settings.h:20-59 | the device of the repository's own sizes has only such addresses |
| LeaOneLevel.UntranslatablePages | algorithm/leaFTL/group.cc:487-553 | a page of one mapped lba, and one whose run ends at the mark, do not |
| LeaCache.SumPop | algorithm/leaFTL/lea_cache.cc:55-61 | the popped group takes its bytes with it |
| LeaCache.Cache.PopVictim | algorithm/leaFTL/lea_cache.cc:58-100 | the least recently used group leaves with its levels put aside, a dirty one gets a translation page, and the group still holds what it took |
| LeaCache.Cache.EvictBody | algorithm/leaFTL/lea_cache.cc:55-102 | enough bytes are freed, no more groups than needed, and the list is never empty when popped |
| LeaCache.Cache.EvictForce | algorithm/leaFTL/lea_cache.cc:104-107 | the count is down to the limit |
| LeaCache.Cache.Evict | algorithm/leaFTL/lea_cache.cc:109-122 | false exactly when even all cached bytes would not do; otherwise room was there or was made |
| LeaCache.Cache.Insert | algorithm/leaFTL/lea_cache.cc:21-47 | the group is cached, first in the list, and counted; its levels are back in place, and one without a page has none to bring back |
| LeaCache.Cache.MapRead | algorithm/leaFTL/group.cc:666-711 | when a read has to be issued, and the cache state that results |
| LeaCache.Cache.Promote | algorithm/leaFTL/lea_cache.cc:124-132 | the group is first, the list otherwise the same |
| LeaCache.Park | algorithm/leaFTL/lea_cache.cc:68-98 | putting a victim's levels aside loses nothing, clean or dirty |
| LeaCache.Unpark | algorithm/leaFTL/lea_cache.cc:28-46 | neither does caching it again, with or without a translation page |
| LeaCache.Cache.Grow | algorithm/leaFTL/lea_cache.cc:135-151 | an insertion into a cached group keeps the count equal to the cached sizes, and the group has taken one piece more |
| LeaCache.Cache.MakeCached | algorithm/leaFTL/leaFTL.cc:718-736 | asking for a group until its page was read leaves it cached |
| LeaCache.Cache.Lookup | algorithm/leaFTL/group.cc:147-188 | a lookup in a cached group gives the segment of the last writer, whatever happened to the group before |
| LeaCache.Execute | algorithm/leaFTL/lea_cache.cc:21-151 | any sequence of cache operations and insertions keeps lru_now_byte the sum over cached groups, pops no empty list, and every group has taken exactly its insertions, in order; after a forced eviction the count is within the limit |
| LeaCache.CountIsCost | algorithm/leaFTL/group.cc:419-454 | what is counted for a group is the bytes of its segments and 4 for every approximate lba |
| LeaCache.Serve | algorithm/leaFTL/leaFTL.cc:706-752 | from an empty cache, after any sequence, reading a group back finds the last writer of every lba among the insertions into the group, and the address last written for accurate ones |
| TableSpec.ReadTranslationIs | algorithm/layeredLSM/sorted_table.cpp:287-311 | the translation is block address times L2PGAP plus offset |
| TableSpec.ReadBack | algorithm/layeredLSM/sorted_table.cpp:287-311 | an entry whose page holds its stretch of the log is readable where its offset translates to |
| TableSpec.Find | algorithm/layeredLSM/sorted_table.cpp:228-240 | every flushed log position lies in a block at an offset |
| TableSpec.ConvertIff | algorithm/layeredLSM/sorted_table.cpp:318-326 | the global offset alone finds the entry exactly when its block starts where full blocks make it start |
| TableSpec.AddRanged | algorithm/layeredLSM/sorted_table.cpp:451-460 | the lba range and the order flag of a summary stay right |
| SortedTable.EntryStep | algorithm/layeredLSM/sorted_table.cpp:376-498 | one buffered entry gets the next piece of the page, an address whose bit was unset, and the pointers stay in step |
| SortedTable.ProgramStep | algorithm/layeredLSM/run_insert.cpp:104-105 | programming the page makes everything inserted readable and disturbs no written page |
| SortedTable.CloseStep | algorithm/layeredLSM/sorted_table.cpp:577-605 | closing a block keeps all entries readable and its summary in the map page or on flash |
| SortedTable.Enter | algorithm/layeredLSM/run_insert.cpp:71-98 | translation, validation and pair insertion of one entry; neither the summary-order aborts nor the double-insert abort is reached |
| SortedTable.EnterAll | algorithm/layeredLSM/run_insert.cpp:67-106 | all pieces of one flush lie in one physical page, in order |
| SortedTable.Run.constructor | algorithm/layeredLSM/sorted_table.cpp:114-157 | an empty run |
| SortedTable.Run.WriteBuffer | algorithm/layeredLSM/run_insert.cpp:67-106 | exactly one new page is programmed, with the buffered entries in out-of-band order |
| SortedTable.Run.WriteMeta | algorithm/layeredLSM/run_insert.cpp:42-65 | exactly one block is closed, and its summary is kept |
| SortedTable.Run.Insert | algorithm/layeredLSM/run_insert.cpp:108-149 | the log grows by the entry and stays readable; a full buffer goes to one page never written before, behind what the table had |
| SortedTable.Run.Pad | algorithm/layeredLSM/run_insert.cpp:151-165 | nothing is lost and everything inserted is in closed blocks |
| SortedTable.Run.Done | algorithm/layeredLSM/run_insert.cpp:190-201 | all entries and all summaries are on flash |
| SortedTable.FlushPage | algorithm/layeredLSM/run_insert.cpp:67-106 | flushing the buffer programs one unwritten page with the buffered entries, and everything inserted is readable |
| SortedTable.Perform | algorithm/layeredLSM/run_insert.cpp:108-165 | any inserts and paddings, exactly up to the one that closes the last block of the table, keep the run readable and log exactly the inserted entries |
| SortedTable.Fill | algorithm/layeredLSM/run_insert.cpp:108-201 | a run filled from empty, exactly up to the operation that closes its last block, and otherwise finished, has every entry in one of its blocks, at the address its offset translates to, holding its data |
| SortedTable.EveryEntryReadable | algorithm/layeredLSM/sorted_table.cpp:287-311 | every flushed entry is found by block and offset at the address it was written to, holding its data |
| LogTable.AddressHolds | algorithm/layeredLSM/run_query.cpp:127-135 | without padding the global offset alone gives the address of a flushed entry |
| LogTable.AddressStays | algorithm/layeredLSM/sorted_table.cpp:318-326 | and that address stays while the table grows |
| LogTable.LiveStep | algorithm/layeredLSM/run_insert.cpp:85-96 | a new entry's piece was not valid, that of the former entry was, and afterwards exactly the last entries are |
| LogTable.LogRun.Insert | algorithm/layeredLSM/run_insert.cpp:108-149 | the map names the last flushed entry of every lba and exactly those entries are valid; neither the double-insert nor the double-delete abort is reached |
| LogTable.LogRun.Query | algorithm/layeredLSM/run_query.cpp:144-171 | the first buffered value of the lba, else the last flushed one; that is the value inserted last exactly when the page buffer does not hold an older one before it |
| LogTable.FillAndQuery | algorithm/layeredLSM/run_insert.cpp:67-149 | the same for a run filled from empty with all inserts, or as many as its blocks hold, those of the unfinished page being buffered |
| LogTable.OlderValueRead | algorithm/layeredLSM/page_aligner.cpp:34-41 | two values of one lba in the buffer: the older one is the answer |
| Credits.QueueHasRoom | interface/vectored_interface.c:375-388 | an enqueue after a grant always finds room |
| Credits.StepKeeps | interface/vectored_interface.c:280-389 | every step keeps credits conserved, the queue exact, and both credit aborts away |
| Credits.EveryInterleaving | interface/vectored_interface.c:280-389 | for every interleaving free credits plus unreleased requests equal QDEPTH, and end_req of a vector has run once if all its requests were counted and not at all otherwise |
| Credits.IdleIff | interface/vectored_interface.c:391-400 | flying_cnt is back at QDEPTH exactly when every granted request was released, and then the queue is empty |
| Credits.IdleBeforeEnd | interface/vectored_interface.c:305-317 | that does not mean that end_req has run |
| Credits.GrantableIff | interface/vectored_interface.c:361-374 | a vector is granted exactly when it fits the free credits, and one larger than QDEPTH never is |
| Credits.StepWorks | interface/vectored_interface.c:280-389 | every enabled step takes exactly one off the work to do |
| Credits.NoDeadlock | interface/vectored_interface.c:361-388 | unless every vector of at most QDEPTH requests has ended, some step is enabled |
| Credits.EveryVectorEnds | interface/vectored_interface.c:305-317 | from every reachable state end_req of every such vector can be reached, once, without new arrivals |
| Credits.EveryScheduleEnds | interface/vectored_interface.c:280-389 | however the steps are scheduled, a run is no longer than the work to do, and one that cannot be continued has ended every such vector |
| LinkedQueue.Queue.constructor | interface/queue.c:8-16 | an empty queue |
| LinkedQueue.Queue.Enqueue | interface/queue.c:18-38 | at the tail, refused exactly when full |
| LinkedQueue.Queue.EnqueueFront | interface/queue.c:40-60 | at the head, refused exactly when full |
| LinkedQueue.Queue.Dequeue | interface/queue.c:62-78 | the first entry, or none exactly when empty |
| LinkedQueue.Queue.Pick | interface/queue.c:80-91 | the first entry without taking it |
| LinkedQueue.Execute | interface/queue.c:18-78 | any sequence of operations on the linked nodes does and answers what it does and answers on a bounded list |
| LinkedQueue.Fifo | interface/queue.c:18-78 | without q_enqueue_front, what left and what is there are what was there and what entered, in order |
| SharedReads.ReadBuffer.Send | algorithm/Page_ftl/page.c:83-117 | a read goes to the device exactly when no read of its page is in flight, and waits otherwise |
| SharedReads.ReadBuffer.Submit | algorithm/Page_ftl/page.c:110-113 | at most one device read per page, of the page as it is then |
| SharedReads.Answer | algorithm/Page_ftl/page.c:280-288 | all waiters of the page, and no others, get their own piece and leave |
| SharedReads.ReadBuffer.Return | algorithm/Page_ftl/page.c:277-290 | no waiter of the page is left behind, all get the version that the device read, and the page may be read again |
| SharedReads.ReadBuffer.End | algorithm/Page_ftl/page.c:301-312 | the read that went to the device ends with its own piece |
| SharedReads.Shared | algorithm/Page_ftl/page.c:83-313 | one device read per page, a matching one for every waiter, and no read answered twice or answered and still waiting |
| SharedReads.AllAnswered | algorithm/Page_ftl/page.c:251-313 | with nothing in flight every accepted read was answered once |
| SharedReads.StepKeeps | algorithm/Page_ftl/page.c:83-313 | every critical section keeps that, and keeps that a waiter without a device read will be current, and one with a device read exactly when that is not older than the waiter |
| SharedReads.RunKeeps | algorithm/Page_ftl/page.c:83-313 | so does any interleaving of them |
| SharedReads.RunDid | algorithm/Page_ftl/page.c:83-117 | exactly the reads in range were accepted, in order, and exactly the writes in range changed the pages |
| SharedReads.StaleIff | algorithm/Page_ftl/page.c:83-117 | over any interleaving a reply is older than its read exactly when at the read's arrival the device already had the page in a version that was not the last one |
| SharedReads.ReadBuffer.Execute | algorithm/Page_ftl/page.c:83-313 | any interleaving of the critical sections, with pages programmed anew anywhere, ends as on the values, accepts exactly the reads in range, and a reply is current exactly when its read did not join a device read that was behind |
| SharedReads.LateWaiterIsStale | algorithm/Page_ftl/page.c:96-105 | in any state with a page at the device: programmed anew and then read, that read gets a former version |
| SharedReads.ReadBuffer.Drain | algorithm/Page_ftl/page.c:251-313 | what is in flight can always be run to completion, and then everything accepted was answered |

## Left out

- The one-page read buffer of the page FTL and of LeaFTL (algorithm/Page_ftl/page.c:68-81): nothing clears it when a segment is erased, so reads are stated over table and flash.
- `new_do_gc`, flush, dump and load of the page FTL: unused or I/O.
- Device timing: reads and writes of the device are atomic steps; data is an opaque value.
- Recency: the 32-bit wrap of the recency counter and of its difference is not modelled.
- Multimaps: `find` is taken to return the first entry with the key, as libstdc++ does.
- RunMerge.RunMerge: normal runs; fewer than 32 of them, since from 32 on the flag does not show the end of a round (`EndIsSeenIff`) and only a last whole move leaves the loop, and at least one block to a round, since otherwise the loop does not end (`EmptyPass`, `Spin`). The owners are a flat map here; `MergeShortcut.MergeOnShortcut` performs the same links and moves on the directories once the merge has its parts, in the merge's order. Valid bits of the merged pieces (`__invalidate_target`), the reads and writes of data, reinserted blocks and pinned data are not modelled.
- LogMerge.MergeLog: one log run, merged alone; its map is given by the last entry of every lba in order, and the pairs of a moved block that the run itself has overwritten are not modelled.
- SortedTable.Run.Insert: blocks copied by a trivial move, pinned data, reinsert and unaligned writes, and the bound on entries of a run are not modelled; it stops at a table with all its block slots used. The block manager hands out every block and map page once, in order: reuse after collection is not modelled (`SortedTable.FlushPage` takes any unwritten block).
- LogTable.LogRun.Insert: the check-and-link that precedes it is `ShortcutMaster.Master.CheckAndLink`; the map inserts of a page come after its loop instead of inside it, and `run_insert_done` of a log run is not modelled.
- LeaGroup.Group.Insert: approximate segments count and are pushed down, but their prediction (PLR) and the CRB code behind the early returns are not modelled; the interval a segment's union reads as when it is approximate is arbitrary. Groups are modelled one at a time, with lbas counted from the first lba of the group, and segment counters for monitoring are omitted.
- LeaCache.Execute: an insertion waits for its translation page in place, while the code has several groups of a batch waiting at once; the eviction before it is an operation of its own, and the code's retries of a refused one are not modelled.
- LeaCache.Cache.Grow: byte counts are unbounded integers except for the unsigned sum in `lea_cache_evict`; the levels that come back are those put aside (`FAST_LOAD_STORE`), and flash space for translation pages and its collection are not modelled.
- LeaCut.MakeSegments: the pieces are inserted after the loop instead of inside it, in the same order.
- Credits.EveryInterleaving: tags, the retry queue, the count of flying reads and the write stop are not modelled; the algorithm is taken to end every issued request once.
- SharedReads.ReadBuffer.Submit: the device reads the page at once when it is asked.
- The shortcut's registration of runs, `shortcut_unlink_and_link_lba`, and the flat build's bulk path for unassigned lbas.
- DFTL, the layered LSM's own garbage collection, block table, page cache and cache layer, bloom filter, PLR, tree and compression map functions.
- Benchmarks, measurement, request plumbing, argument parsing, parameter search, logging and memory management.
