# An embedded page database, its transactions, and three small cores: model and proofs

The repository holds an embedded database that keeps each table in one file of 4096-byte pages
(`PWSL/include/db.h`), a transaction layer over several such tables (`PWSL/include/storagewdb.h`), and, beside
them, a fixed-size allocator, a reader/writer lock and a swept-box collision test. The modules here model them and
prove what they are for.

**The table.** `BTree` is the tree of index pages: slots float between two ends of a page, inserts shift the
shorter side, pages split, borrow and merge, and each page stores its parent and its slot there. Its methods do
what the page methods of the source do, array move by array move; what they come to is the in-order reading of the
tree, and that is a finite map. `TreeState` says when pages, parents, sizes and reading agree; `TreeSteps`,
`TreeShare` and `TreeSizes` prove it of each structural step, `TreeMoves` and `TreeEdits` connect the copying loops
with the steps, `TreeSlots`, `TreeOrder` and `TreeGaps` are about single slots, the order, and the gaps between keys.
`PageSpace` is the file's list of free pages. `DataHeap` cuts data pages into blocks and joins them again (`HeapState`,
`FreeLists`, `HeapSteps`, and `FreeBlocks` for what becomes of the free ones); `Records` writes, rewrites, frees and
reads records as chains of slices (`Slices`). `KeyOrder` is the comparison of keys. `Table` puts tree and heap on one
file and proves that together they are a map from keys to values, with every page accounted for.

**What has to be written.** Tree, heap and page list mark a page dirty where the source does, and change pages only
while they are marked. `SavedFile` is the file as it was last saved; each part keeps, as part of its invariant, that its
unmarked pages are as they are there. `FileImages` and `Table.DirtySuffice` put the parts together: the saved file with
the marked pages written over it is the file as put and del have left it.

**The cache.** `PageHash` is the hash of cached pages with its order of use (`LruOrder`); `CachedFile` says what
readers see through it, what a snapshot holds, and that it holds the same whatever the table is used for until it is
saved. `SnapshotLog` takes the snapshots of all tables through the log while transactions go on
(`SnapshotLog.CheckpointAll`): the files end with what readers saw at the snapshots, all of them or none.

**The checkpoint.** `RedoLog` is the multi-file redo log over `LogDisk`: every single write is a state a crash may
leave behind, and recovery, itself cut short any number of times, makes a checkpoint of all tables happen as a whole
or not at all; `LogHistory` follows it through whole histories of restarts and crashes, with the times it gives to its
records. `LogArchive` shows that the chained log files keep the committed records; `Replay` is the restore to a point in
time from a backup and those files, and `RestoreTwice` what a second restore comes to.

**Transactions.** `TableUndo` is the undo log of one table under a transaction. `TableLocks` interleaves
transactions over several tables with the checkpoint, one lock step at a time; `TableSteps` says what the snapshots
hold in terms of these steps alone; `TableRuns` shows that each transaction counts once and that nothing blocks for
ever; `TableTwice` is about transactions that name a table twice.

**Smaller cores.** `ChunkAllocator` with `FreeSlots`, `ReaderWriterLock` (one step per critical section, posts
later), and `BrushClip` over exact reals.

Where the code does less than one would wish, the exact condition is proved, with an input that shows the failure:

- cancelling a transaction loses a key that it deleted and then inserted again without overwriting
  (`TableUndo.CancelRestores`, `CancelLosesKey`);
- giving up a block can leave a free block of 4 bytes, below FRAGMIN (`FreeBlocks.SmallExactly`, `DataHeap.FreeBlock`,
  `SmallFragment`);
- `next_key` passes over a key for some keys that are not present (`BTree.NextKey`, `NextKeyPassesOver`);
- `cleanup` with an open snapshot can lose pages (`CachedFile.Cleanup`, `CleanPageCanGo`, `OpenSnapshotLosesPage`);
- a transaction that names a table twice can tear the snapshots (`TableTwice`);
- the allocator needs a byte between any two chunks (`ChunkAllocator.SearchFindsExactly`, `TouchingChunks`);
- a restore needs ascending stamps, which a restart with an early clock does not give: the logger then starts from
  the number of its log file, not from the last stamp (`Replay.RestoreExactlyInOrder`, `PointInTime`, `ClockSetBack`);
- a second restore to an earlier time, by the logger that did the first, can tear the tables
  (`RestoreTwice.AgainExactly`, `BackTears`).

`dafny verify dfyconfig.toml` checks the whole project.

## Model

| member | source | states |
|---|---|---|
| BTree.BTree.Split | PWSL/include/db.h:570-587 | A page with 254 keys is cut in two; every page is left within its bounds, every child names its parent and its slot there, and the in-order reading of the whole tree is what it was, through any number of splits further up. |
| BTree.BTree.CutPage | PWSL/include/db.h:572-586 | Of the 254 slots the first 127 stay, with the children around them, the last 126 go to the new page with theirs, and slot 127 is left to enter the parent. |
| IndexPage.SlotsFit | PWSL/include/db.h:318-324 | The places of 254 slots, 255 children and the page header fill the bytes of a page without overlap, and leave no room for one more. |
| BTree.BTree.InsertInternal | PWSL/include/db.h:589-619 | A middle slot and a new right child enter the parent, with all moved children relinked; the tree is left at rest and reads as before. |
| BTree.BTree.Enter | PWSL/include/db.h:591-616 | The shorter side makes room: the slots behind the place move if there is space behind them and they are fewer than those before it, or if there is none before. |
| BTree.BTree.MergeSibling | PWSL/include/db.h:621-699 | Two neighbours that together hold 251 slots become one page; the gap in the parent is passed upwards until the tree is at rest again, or its root goes; the reading does not change. |
| BTree.BTree.MergeInto | PWSL/include/db.h:626-677 | The right neighbour is appended to the left one and freed, its children relinked, and the separator leaves the parent from its shorter side; only the parent may now be too small. |
| BTree.BTree.Mend | PWSL/include/db.h:678-698 | A parent that lost a slot borrows from or merges with a neighbour, or, if it is an empty root, is replaced by its only child; the tree is at rest and reads as before. |
| BTree.BTree.RShrink | PWSL/include/db.h:701-759 | A page one slot short takes a slot from its right neighbour, or is merged with it; the tree is left at rest and reads as before. Both the leaf and the inner variant. |
| BTree.BTree.LShrink | PWSL/include/db.h:761-817 | The same with the left neighbour. |
| BTree.BTree.InsertInitNode | PWSL/include/db.h:908-916 | The first key of an empty table stands in the middle of the root leaf and is all there is. |
| BTree.BTree.InsertLeaf | PWSL/include/db.h:918-940 | The new slot stands between exactly the slots that were left and right of its place, and nothing else changes in the whole reading; splits included. |
| BTree.BTree.EnterLeaf | PWSL/include/db.h:921-937 | In the leaf the shorter side makes room for the slot, and all others stay, in order. |
| BTree.BTree.RemoveLeaf | PWSL/include/db.h:829-854 | Exactly the one slot leaves the whole reading; borrows, merges and the fall of the root included. |
| BTree.BTree.LeaveLeaf | PWSL/include/db.h:833-844 | In the leaf the shorter side closes the gap, and all others stay, in order. |
| BTree.BTree.RemoveInternal | PWSL/include/db.h:819-827 | The slot of an inner page leaves the reading: its predecessor, the last slot of the last leaf below, takes its place and is removed there. |
| BTree.BTree.Remove | PWSL/include/db.h:857-863 | Either way exactly the one slot goes. |
| BTree.BTree.SearchPage | PWSL/include/db.h:871-885 | The search inside one page ends at the key, or where all slots before are smaller and all after are larger. |
| BTree.BTree.FindKey | PWSL/include/db.h:865-892 | The search ends at the slot of the key, or in the one leaf, at the one place, where the key belongs; it finds nothing only in an empty table. |
| BTree.BTree.Find | PWSL/include/db.h:894-899 | find answers as a lookup in the map of keys to records. |
| BTree.BTree.Put | PWSL/include/db.h:1424-1439 | An insert, with or without replacing, changes that map at its key only, and says whether the key was there. |
| BTree.BTree.Del | PWSL/include/db.h:1607-1618 | A delete removes just its key from the map and says whether it was there. |
| TreeState.LeavesAtOneDepth | PWSL/include/db.h:570-587 | All leaves of a linked tree have the same number of steps to the root, and nothing else has as many. |
| TreeState.AtRest | PWSL/include/db.h:563-568 | At rest every page but the root holds 126 to 253 keys, and each child names its parent and its slot in it. |
| TreeSteps.GrownLinked | PWSL/include/db.h:591-616 | A child cut in two and entered in its parent, wherever the page slid to: parents, children and reading all agree again. |
| TreeSteps.HalvedPending | PWSL/include/db.h:573-585 | Cutting a page at a slot and moving one part to a new page keeps every other page in order and leaves the parent one step from being so. |
| TreeShare.SharedLinked | PWSL/include/db.h:701-733 | Two neighbours that share their slots and the separator anew, cut anywhere, leave the tree linked and the parent reading as before. |
| TreeShare.MergedLinked | PWSL/include/db.h:646-677 | Two neighbours made one, the separator gone from the parent: the tree stays linked. |
| TreeShare.CollapsedLinked | PWSL/include/db.h:689-697 | The only child of an empty root becomes the root. |
| TreeMoves.ShiftedNextUp | PWSL/include/db.h:594-598 | The loop that moves slots one place up and tells each moved child its new place: one more turn. |
| TreeEdits.SplitPages | PWSL/include/db.h:576-585 | What the copying and relinking of a split leaves in the pages is a page cut in halves. |
| TreeEdits.BorrowRightPages | PWSL/include/db.h:701-733 | What the assignments of a borrow leave in the pages is a sharing of the joint slots. |
| TreeSizes.MergeRightOk | PWSL/include/db.h:646-677 | After a merge only the parent may hold too few slots. |
| TreeSlots.OverwrittenWhole | PWSL/include/db.h:819-827 | Overwriting an inner slot by the last slot of the leaf before it, and dropping that, is dropping the inner slot from the whole reading. |
| TreeOrder.EntriesInsert | PWSL/include/db.h:918-940 | A slot between smaller and larger keys adds one entry to the map and keeps the order. |
| TreeOrder.EntriesRemove | PWSL/include/db.h:829-854 | Taking a slot out removes one entry. |
| TreeOrder.BetweenChild | PWSL/include/db.h:886-887 | Descending at a separator keeps the key, if present, below the page. |
| BTree.BTree.LeftMost | PWSL/include/db.h:942-949 | The first slot of the subtree is the slot of the whole that the subtree starts with. |
| BTree.BTree.Next | PWSL/include/db.h:951-965 | From the i-th slot of the whole to the (i+1)-st, down into a child or up through the parents, which ends; nothing only at the end. |
| BTree.BTree.Walk | PWSL/include/db.h:1603-1603 | A full scan gives every slot exactly once, in ascending order. |
| BTree.BTree.WalkFrom | PWSL/include/db.h:901-906 | A scan from a key gives exactly the slots from the least key not below it on. The empty table included. |
| TreeGaps.BelongsOnce | PWSL/include/db.h:865-892 | The tree and a missing key determine the leaf, and the place in it, where the search for the key ends. |
| BTree.BTree.NextKey | PWSL/include/db.h:1546-1552 | next_key answers the least larger key, or that there is none, if and only if the key is in the table or belongs behind the last slot of its leaf; else it answers the slot after that one, or none. Which of the two holds depends on the tree and the key alone. |
| BTree.NextKeyPassesOver | PWSL/include/db.h:1546-1552 | The failing input, as a run: with the keys 1 and 3 put into a new table, next_key of 2 finds nothing. |
| BTree.BTree.SetDirty | PWSL/include/db.h:484-488 | The mark that WI_page, WL_page, WR_page and set_dirty put on a page; it changes nothing else. |
| BTree.BTree.Write | PWSL/include/db.h:484-488 | A page of the tree is changed only while it is marked, so that every page not marked is as in the saved file; the methods of the tree change pages in no other way. |
| PageSpace.PageSpace.Alloc | PWSL/include/db.h:1230-1244 | The page handed out was not in use; the free list stays acyclic and shorter by its head, or the file grows by one page. |
| PageSpace.PageSpace.Free | PWSL/include/db.h:1246-1251 | A page in use goes to the head of the free list and is in use no longer. |
| KeyOrder.WordDifference | PWSL/include/db.h:2651-2677 | The first byte in which two words differ is the first nonzero byte of their wrapped difference. |
| KeyOrder.WordDecides | PWSL/include/db.h:2655-2663 | The value returned for two differing words has the sign of the byte order of the whole strings. |
| KeyOrder.MemcmpFast | PWSL/include/db.h:2651-2677 | memcmp_fast has the sign of the lexicographic byte order, for any length. |
| KeyOrder.Compare | PWSL/include/db.h:2679-2717 | compare has the sign of the byte order of the whole keys, although the slot holds at most five bytes of a key and the rest is cut into slices at any places. |
| KeyOrder.CompareSlices | PWSL/include/db.h:2699-2716 | The same for the part that follows the slices. |
| KeyOrder.RankOrders | PWSL/include/db.h:2679-2717 | Byte strings can be ranked by real numbers in their lexicographic order: the search by ranks is the search by keys. |
| KeyOrder.RankIsOneToOne | PWSL/include/db.h:2679-2717 | Different keys have different ranks. |
| HeapState.TilesOnce | PWSL/include/db.h:2487-2488 | Every byte of a data page lies in exactly one block. |
| HeapState.CapacityAtLeast | PWSL/include/db.h:1348-1360 | A block has room for at least four bytes; less than FRAGMIN exactly when it takes sixteen with its header; all of a page exactly when it is the page. |
| FreeLists.OnItsList | PWSL/include/db.h:1262-1308 | Walking a list from its head meets each free block of the class once and nothing else. |
| FreeLists.ClearedKeeps | PWSL/include/db.h:1262-1288 | Taking a block off its doubly linked list keeps all lists and touches only list links. |
| FreeLists.PushedKeeps | PWSL/include/db.h:1290-1308 | So does putting one on. |
| DataHeap.DataHeap.ClrFragment | PWSL/include/db.h:1262-1288 | clr_fragment, field by field, is that removal. |
| DataHeap.DataHeap.SetFragment | PWSL/include/db.h:1290-1308 | A block in hand goes on its list and is one more free block, or, when it is a whole page, the page is freed and it is none; the heap is well formed, live blocks are untouched. |
| DataHeap.DataHeap.AllocHead | PWSL/include/db.h:1310-1325 | The block is the head of the first list, from the class of the request on, that is not empty, or a new page that was not in use; it has room for the request (or is a whole page), is off every list, and no free block follows it. |
| DataHeap.DataHeap.AdjustHead | PWSL/include/db.h:1327-1346 | Cutting off what a live block does not need, taking in the free block after it first, keeps the heap well formed and all live contents; exactly the rest, from the next multiple of 16 to the end of what was joined, becomes free, and it is never smaller than FRAGMIN. |
| DataHeap.DataHeap.AllocDataHead | PWSL/include/db.h:1348-1368 | Exactly one live block is new, of the requested size or a whole page, cut from the first block that fits; every other live block is as before, the free blocks are the old ones less that block, with its rest, and none of them has become smaller than FRAGMIN; if no block in use had room for another behind its bytes, none has. |
| DataHeap.DataHeap.JoinLeft | PWSL/include/db.h:2508-2519 | A block given up is joined with the free block before it, if there is one. |
| DataHeap.DataHeap.JoinRight | PWSL/include/db.h:2520-2524 | And with the free block after it, so that no two free blocks are neighbours. |
| DataHeap.DataHeap.FreeBlock | PWSL/include/db.h:2501-2528 | Giving up a block removes it, and nothing else, from the live blocks; it and its free neighbours become one free block, or none if they fill the page; a free block smaller than FRAGMIN comes of it if and only if the block has room for 4 bytes and neither neighbour is free. |
| HeapSteps.FreeAreApart | PWSL/include/db.h:2501-2528 | Two free blocks are never neighbours. |
| HeapSteps.FreeIsOnItsList | PWSL/include/db.h:1290-1308 | A block is on the list of class capacity/8 exactly when it is free and of that class. |
| HeapSteps.PageHasLive | PWSL/include/db.h:1292-1297 | A data page always holds a live block: an empty one is given back. |
| FreeBlocks.TrimmedKeepsSmall | PWSL/include/db.h:1327-1346 | What cutting a block to a request leaves is never smaller than FRAGMIN, whatever the request. |
| FreeBlocks.SmallExactly | PWSL/include/db.h:2501-2528 | Joined with its free neighbours, a block given up becomes a free block smaller than FRAGMIN exactly when it has room for 4 bytes and has no free neighbour; no other block becomes one. |
| FreeBlocks.SmallNeverTaken | PWSL/include/db.h:1310-1325 | No allocation takes such a block. |
| DataHeap.SmallFragment | PWSL/include/db.h:1348-1368 | The failing input, as a run: in a new heap three slices of one byte are allocated and the second is given up, which leaves a free block of 4 bytes. |
| DataHeap.DataHeap.Write | PWSL/include/db.h:484-488 | The blocks of a page are changed only while the page is marked, so that every data page not marked is as in the saved file; the methods of the heap change blocks in no other way. |
| Records.CreateNode | PWSL/include/db.h:1370-1422 | The record written, whatever the lengths, is a chain of new, nonempty slices that hold the two length words, the key and the value; all other live blocks are untouched; the slot gets the inline part of the key. |
| Records.PutReplace | PWSL/include/db.h:1441-1504 | After a replacement by a longer or shorter value the chain holds the key and the new value and nothing else; the abandoned slices are freed, each once, and the room behind the last is given back; all other live blocks are untouched; the old value is returned if wanted; the record is made anew, and its slot with it, exactly when the first slice is too small for the whole, or for a whole page of it. |
| Records.RewriteValue | PWSL/include/db.h:1456-1503 | The rewriting in place: from the slice where the key ends over the old slices, into new ones, and the rest freed. |
| Records.RewriteRest | PWSL/include/db.h:1469-1499 | Of the old slices exactly the full pages that the value fills are used again, and then the one that its end fits in, cut to size, or else new ones are taken; what is left over still leads to its end. |
| Records.DropAndEnd | PWSL/include/db.h:1500-1501 | The slices left over go, once each, and the chain ends. |
| Records.FreeData | PWSL/include/db.h:2501-2528 | Freeing a record frees each of its slices once, and nothing else. |
| Records.ExtractData | PWSL/include/db.h:2530-2544 | What was written is read back, byte for byte. |
| Records.ExtractKey | PWSL/include/db.h:2546-2595 | The key is read back from its slices. |
| Records.ExtractVal | PWSL/include/db.h:2597-2631 | The value is read back from its slices, with its length. |
| Records.RecordNames | PWSL/include/db.h:1370-1422 | The slot made with a record is one that compare reads as the key stored. |
| Slices.RecordIsOneToOne | PWSL/include/db.h:2530-2631 | The bytes of a record determine its key and its value. |
| Table.Table.Find | PWSL/include/db.h:1528-1532 | find returns the value last stored, and nothing for other keys. |
| Table.Table.Put | PWSL/include/db.h:1506-1519 | put stores the value under its key, or leaves an existing one, and changes nothing else; tree and data heap together. |
| Table.Table.PutGet | PWSL/include/db.h:1521-1526 | The put that overwrites returns the old value. |
| Table.Table.Del | PWSL/include/db.h:1620-1633 | del removes the key, frees its record, and returns its value. |
| Table.Table.Run | PWSL/include/db.h:1506-1633 | Any run of operations leaves the table that the plain meaning of the operations says. |
| Table.Table.CutToSize | PWSL/include/db.h:1327-1346 | After any run no slice of a record has room behind its bytes for another block. |
| Table.Table.PagesOf | PWSL/include/db.h:1230-1251 | Each page 1 to max_page_idx is exactly one of: a page of the tree, a data page with a live block, a member of the free list. |
| Table.Table.CompareAt | PWSL/include/db.h:2679-2717 | compare at the slot of a stored key, on the bytes in the heap, tells the order of the ranks by which the tree searches. |
| Table.Table.DirtySuffice | PWSL/include/db.h:1066-1094 | Whatever put and del have done since the file was saved: the saved pages, with the marked pages as they are now written over them, are the pages of the file as it is now, the magic page and new pages included. |
| FileImages.MarkedSuffice | PWSL/include/db.h:1066-1094 | The same of any two files whose index pages, data pages, free pages and magic fields agree outside the marked pages. |
| Table.Table.Save | PWSL/include/db.h:1074-1104 | Writing the marked pages and taking the marks away leaves the file as it was in memory, and the table as it was. |
| LruOrder.SortIs | PWSL/include/db.h:460-462 | Sorting by stamps keeps the pages and puts the one used longest ago first. |
| LruOrder.OneOrder | PWSL/include/db.h:460-462 | There is only one such order. |
| LruOrder.SurvivorsAre | PWSL/include/db.h:1041-1047 | Only clean pages go, if one goes all older clean ones go, and it stops at the low mark or with no clean page left. |
| PageHash.PageHash.Find | PWSL/include/db.h:1131-1137 | The hash answers as a set of page indexes, and the page found becomes the one used last. |
| PageHash.PageHash.Insert | PWSL/include/db.h:1106-1129 | The page joins the map and is the one used last; the table is doubled exactly when there are as many pages as buckets, so their number stays a power of two that the mask stands for; doubling, and renumbering at the wrap of the 32-bit stamp, keep all others and their order. |
| PageHash.PageHash.Double | PWSL/include/db.h:1111-1127 | Twice the buckets hold the same pages, each in its bucket. |
| PageHash.PageHash.Erase | PWSL/include/db.h:996-1009 | Exactly the page leaves the map. |
| PageHash.PageHash.Touch | PWSL/include/db.h:1011-1016 | A page used moves to the end of the order of use; the others keep theirs, also when the stamps are given anew. |
| PageHash.PageHash.Renumber | PWSL/include/db.h:1018-1028 | New stamps from 0 on, in the same order. |
| PageHash.PageHash.Cleanup | PWSL/include/db.h:1031-1049 | The pages left, with nothing but new stamps, are the survivors of the order of use. |
| CachedFile.CachedFile.Rload | PWSL/include/db.h:1214-1225 | Loading a page changes nothing a reader sees, no page in memory but for its time of use, and nothing of an open snapshot. |
| CachedFile.CachedFile.Wload | PWSL/include/db.h:1226-1226 | The page loaded for writing is in memory, as it was, and marked dirty; its image in an open snapshot, and those of all other pages, are kept. |
| CachedFile.CachedFile.Write | PWSL/include/db.h:484-488 | A change to a page so marked changes what readers see of that page only, and not what an open snapshot holds of it. |
| CachedFile.CachedFile.Extend | PWSL/include/db.h:1230-1244 | A page behind the last one is seen blank, and dirty; no other page changes, and nothing of an open snapshot. |
| CachedFile.CachedFile.Reuse | PWSL/include/db.h:1233-1243 | A page of the free list, found in memory or loaded, is seen blank, and dirty; one that the file does not have is an exception. An open snapshot keeps the image it has of it, and of all others. |
| CachedFile.CachedFile.Run | PWSL/include/storagewdb.h:204-208 | While a snapshot is open, any run of reads, changes and allocations leaves what the checkpoint is to save as it was, and readers see the changes of the run and no others. |
| CachedFile.CachedFile.Cleanup | PWSL/include/db.h:1031-1049 | The pages left are the survivors of the order of use. Readers see the same if and only if each page that would go is outside the snapshot, or its image there is in the file; the snapshot can still be saved if and only if all its pages stay; with no snapshot open both are always so. |
| CachedFile.CachedFile.SnapshotCreate | PWSL/include/db.h:1074-1094 | File and snapshot together are exactly what readers saw; the snapshot has each dirty page once, and no page is dirty afterwards. |
| CachedFile.CachedFile.SavePage | PWSL/include/db.h:1652-1664 | One image of the snapshot goes to the file: readers see the same, and what is to be saved in all stays. |
| CachedFile.CachedFile.Save | PWSL/include/db.h:1673-1713 | Writing the snapshot lays its images over the file; nothing readers see changes. |
| CachedFile.CachedFile.SaveAmid | PWSL/include/db.h:467-488 | The same while others read, change and allocate pages between any two writes: the file becomes what it was to become when the first was made, and readers see the changes and no others. |
| CachedFile.CachedFile.SnapshotSaved | PWSL/include/db.h:1074-1104 | From snapshot_create to the last write, with any use of the table from the one to the other: the file is what readers saw when the snapshot was taken, and they see that with all changes made since. |
| CachedFile.CachedFile.SnapshotRelease | PWSL/include/db.h:1096-1104 | After the release, and the cleanup in it, readers see the same if and only if the pages of the snapshot that would go are in the file as copied; the next snapshot will hold all there is to save if and only if so are the clean ones that would stay; both hold if the snapshot has been saved. |
| CachedFile.CleanPageCanGo | PWSL/include/db.h:489-489 | A clean page can leave the cache unnoticed if and only if it is not in an open snapshot, or its image there is already in the file. |
| CachedFile.OpenSnapshotLosesPage | PWSL/include/db.h:1031-1049 | The failing input, as a run: a page is changed, another read, a snapshot taken, and a cleanup comes before it is saved; readers get the old image of the changed page. |
| SnapshotLog.OverlayIs | PWSL/include/db.h:1673-1713 | Writing the logged pages of a snapshot, the magic page last, over the file is laying the snapshot over it. |
| SnapshotLog.CheckpointAll | PWSL/include/storagewdb.h:619-644 | A checkpoint of all tables beside running transactions, which use the tables again once the snapshots are taken: before prepare, before commit, and between any two pages written. The files end with what readers saw when the snapshots were taken, all stamped with the time of the checkpoint; logged are exactly the dirty pages, once each, and the magic page as page 0 behind them, or nothing if nothing has changed; a single write separates the states that recover to the old images of all tables from those that recover to these; readers see all that was done since, and the next checkpoint can start from there. |
| LogDisk.ReplacedTwice | PWSL/include/db.h:1673-1682 | Writing a snapshot again over part of itself comes to the same pages. |
| RedoLog.GlobalLogger.Open | PWSL/include/db.h:2021-2047 | The log file opened after a restart is the newest that any table names. |
| RedoLog.GlobalLogger.RotateIfDue | PWSL/include/db.h:2001-2006 | A new log file is started exactly when one was asked for, or the old one is full, by records or by pages; after that there is room for a record header; and every one of its writes leaves recovery to the state as it was. |
| RedoLog.GlobalLogger.Prepare | PWSL/include/db.h:2068-2087 | Every state on disk recovers to the old images of all tables up to the last write, which turns recovery to the new ones; in a new log file, which no table names yet, that is left to the first write of commit. The writes are counted, and the log grows by just the pages of the snapshots. |
| RedoLog.GlobalLogger.CommitTable | PWSL/include/db.h:1838-1857 | One table after the other gets its new pages; at every write in between recovery still leads to the new images of all tables. |
| RedoLog.GlobalLogger.CommitAll | PWSL/include/db.h:2110-2128 | The tables end with their new images and the record closed. |
| RedoLog.GlobalLogger.Checkpoint | PWSL/include/db.h:2068-2128 | A checkpoint of any tables is atomic: a single write, whose number among the writes is given, separates the states that recover to the old images of all tables from those that recover to the new ones; tables and record bear its time; it takes the next record of the log file, or the first of a new one. |
| RedoLog.GlobalLogger.Recover | PWSL/include/db.h:2047-2108 | Recovery reaches the images it has to, and so does a recovery after a crash at any of its own writes, which are counted; a record begun but not prepared is passed over as aborted. |
| RedoLog.CommittingRecovers | PWSL/include/db.h:2089-2108 | In the middle of a commit recovery makes all tables new or leaves all as they were; which, depends on whether a table already names the log file. |
| LogHistory.Turn | PWSL/include/db.h:2068-2128 | A checkpoint cut short at a given write, with recoveries cut short at others, took effect as a whole if and only if that write was not before the one that turns recovery; and when it is not cut short it makes exactly so many writes; its stamp is after the logger's time, or after the last stamp if the clock it reads is. |
| LogHistory.RestartCut | PWSL/include/db.h:2021-2108 | A recovery that is itself stopped after a given write leaves that very state, and recovery to the same images. |
| LogHistory.Continue | PWSL/include/db.h:2021-2128 | From a logger at rest, any sequence of checkpoints, restarts and crashes: the images of some of the checkpoints in order, among them all that were not cut short or only behind the turning write, and none that were cut short before it; and a log that holds just those, with stamps within the given bounds; the stamps ascend if each checkpoint after a restart, and each redo, reads a clock past the last stamp. |
| LogHistory.History | PWSL/include/db.h:2021-2128 | The same from any disk that recovery can open, with a record still to be redone or not. |
| LogHistory.UnbrokenInTime | PWSL/include/db.h:2110-2115 | A logger that is neither restarted nor stopped keeps the time whatever the clock does, once its own time, or its first stamp, is past the last stamp. |
| LogArchive.SameRecAt | PWSL/include/db.h:2070-2084 | A record whose pages are not written again stays the record it was. |
| LogArchive.ArchiveQuiet | PWSL/include/db.h:1828-1836 | Writes of an open record, and of a log file no table names yet, leave every committed record of the chain as it is. |
| LogArchive.ArchiveClose | PWSL/include/db.h:2117-2121 | Committing the current record appends it to those that the chain holds. |
| LogArchive.ArchiveRaise | PWSL/include/db.h:1966-1986 | When a table first names the next log file the chain has grown by an empty file. |
| Replay.RestoreTo | PWSL/include/db.h:2160-2180 | The tables end with the images that the records picked by the scan make, in order, through all files of the chain; they bear the time of the last of them and name the log file that holds it, or are untouched if there was none; the stamps returned are theirs; and the logger has the log file open again that the tables named before. |
| Replay.CopyRecord | PWSL/include/db.h:1988-1999 | One committed record overlays its pages on every table. |
| Replay.ScanFile | PWSL/include/db.h:2171-2176 | The loop over one file applies exactly its committed records up to the first stamp not before the time asked for, and tells whether to follow the chain. |
| Replay.RestoreExactlyInOrder | PWSL/include/db.h:2169-2177 | A restore applies, for every time, exactly the records committed after the backup and before that time, if and only if the stamps ascend and the next record of the backup's log file is stamped later than the backup. |
| Replay.ClockSetBack | PWSL/include/db.h:2169-2177 | The failing input, as a run: after a checkpoint stamped 11 the tables are copied, a restart checkpoints at 30, another restart, its clock set back, at 20; a restore of the copy to time 25 applies nothing, though the checkpoint stamped 20 took effect. |
| Replay.CopyOf | PWSL/include/db.h:2110-2128 | What a checkpoint leaves can be copied as a backup if the stamps were in order until then. |
| Replay.LaterTaken | PWSL/include/db.h:2110-2128 | After any history of checkpoints and crashes the log chain holds, behind the records of a backup, exactly the records of the checkpoints that took effect, with their stamps, in order. |
| Replay.ReplayedEffect | PWSL/include/db.h:2160-2180 | Applying the first c of them gives the images as they were after the c-th. |
| Replay.PointInTime | PWSL/include/db.h:2160-2180 | Tables copied at one checkpoint, then any history; restored over the logs to a time, the copy holds, with the stamps in order, the images as they were after exactly the checkpoints stamped before it, and bears the time of the last; and the stamps are in order if the clock keeps the time, which for a logger that runs on is always so. |
| RestoreTwice.RestoreTwice | PWSL/include/db.h:2160-2180 | With the stamps in order, a second restore to the same or an earlier time, by a logger opened anew, applies nothing. |
| RestoreTwice.AgainNothing | PWSL/include/db.h:2169-2177 | The scan from the log file that holds the last record applied finds nothing earlier than the time asked for. |
| RestoreTwice.AgainExactly | PWSL/include/db.h:2169-2178 | With the logger of the first restore, which has its old log file open and skips in that file only, a second one to an earlier time applies nothing if and only if the first took nothing from the files behind, or the first record there is not earlier. |
| RestoreTwice.BackTears | PWSL/include/db.h:2169-2178 | The failing input: after a restore to 25 over two records of a second log file, the same logger restores to 15, applies the first record over the second, and leaves a table as it was at no time. |
| TableUndo.RebuiltIs | PWSL/include/storagewdb.h:220-248 | Undoing gives back the table of lock time, less the keys that are in both parts of the undo log; all of it exactly when there are none. |
| TableUndo.NextTracks | PWSL/include/storagewdb.h:250-286 | Every insert and delete keeps the undo log true: each old key has its old value there or is unchanged, each new key is noted. |
| TableUndo.NextClash | PWSL/include/storagewdb.h:255-270 | A key gets into both parts exactly by an insert without overwriting of a key the transaction had deleted, and stays there. |
| TableUndo.RanIs | PWSL/include/storagewdb.h:250-367 | The same for whole runs. |
| TableUndo.CancelRestores | PWSL/include/storagewdb.h:220-248 | Cancelling a run restores the table if and only if the run made no such insert. |
| TableUndo.CancelLosesKey | PWSL/include/storagewdb.h:224-232 | The smallest such run, and what it loses. |
| TableUndo.Storage.Insert | PWSL/include/storagewdb.h:250-286 | insert refuses an empty key, and a key that is present and not to be overwritten, and then changes nothing; otherwise it stores the value; either way it is one step of that undo log. |
| TableUndo.Storage.Delete | PWSL/include/storagewdb.h:342-367 | So is del. |
| TableUndo.Storage.Checkpoint | PWSL/include/storagewdb.h:220-248 | The loops over both parts undo, or keep, and the log is empty afterwards. |
| TableUndo.Storage.Transact | PWSL/include/storagewdb.h:220-367 | A whole transaction: kept, its operations; cancelled, the table of lock time less the re-created keys. |
| TableLocks.StepKeeps | PWSL/include/storagewdb.h:758-778 | Every step of transactions and checkpoint, in any order, keeps the lock and table invariant. |
| TableLocks.SnapshotsAreSerial | PWSL/include/storagewdb.h:619-644 | In every interleaving the snapshots of all tables together are the tables after some of the transactions, each whole, in one order; although the locks are released one table at a time. |
| TableRuns.RunLogs | PWSL/include/storagewdb.h:768-778 | Each transaction counts once, with its work on all the tables it named. |
| TableSteps.LogIs | PWSL/include/storagewdb.h:728-778 | Told from the steps of a run alone, whatever the transactions name: one entry for each that has ended, in that order, with just its operations on each table, in order; marked to be undone if and only if it was aborted, or an insert of it was refused for an empty key or a key then present. |
| TableSteps.SnapshotsFollowSteps | PWSL/include/storagewdb.h:619-644 | In every interleaving the snapshots are what comes out if the transactions that had ended before the checkpoint took its last lock are done one after the other, each with its operations as in the steps, and undone if it was aborted or refused. |
| TableRuns.OwnerGoesOn | PWSL/include/storagewdb.h:758-766 | Whoever holds a table, somebody can go on. |
| TableRuns.ComesToRest | PWSL/include/storagewdb.h:619-644 | No deadlock: from every reachable state all transactions and the checkpoint can be brought to their end. |
| TableTwice.SerialExactlyWhenNamedOnce | PWSL/include/storagewdb.h:758-778 | The lists of names for which the snapshots are serial in every interleaving are exactly those that name each table once. |
| TableTwice.TwiceBreaks | PWSL/include/storagewdb.h:204-248 | With mutexes that let a second lock and a foreign unlock pass: for any list that names a table twice, a run in which the snapshots do not hold what a finished transaction wrote. |
| ReaderWriterLock.RwLock.Exclusive | cgame/libcommon/rwlock.cpp:38-111 | A writer overlaps neither a reader nor another writer. |
| ReaderWriterLock.RwLock.FreeMeansNoWaiter | cgame/libcommon/rwlock.cpp:76-111 | The count is 0 exactly when nobody is inside or has been let in, and then nobody waits. |
| ReaderWriterLock.RwLock.WaitersAreServed | cgame/libcommon/rwlock.cpp:38-111 | No wake-up is lost: while a thread waits, some thread can move. |
| ReaderWriterLock.RwLock.LockRead | cgame/libcommon/rwlock.cpp:38-55 | A reader is let in unless a writer is inside or waits. |
| ReaderWriterLock.RwLock.LockWrite | cgame/libcommon/rwlock.cpp:57-74 | A writer is let in only when nobody is inside. |
| ReaderWriterLock.RwLock.Unlock | cgame/libcommon/rwlock.cpp:76-111 | The last one out hands over to one writer, or else to all waiting readers. |
| ReaderWriterLock.RwLock.Step | cgame/libcommon/rwlock.cpp:38-111 | A thread outside asks for the lock and gets it or waits; one inside leaves; one that is held up stays; no other thread moves. |
| ReaderWriterLock.RwLock.Run | cgame/libcommon/rwlock.cpp:38-111 | In any interleaving, with posts delayed past the spin lock, all that holds; and the lock ends where these steps lead. |
| ReaderWriterLock.RwLock.RunOut | cgame/libcommon/rwlock.cpp:38-111 | From any state, if nobody asks any more, all threads get in and out again. |
| FreeSlots.LiveApart | cgame/include/amemory.h:89-118 | Blocks handed out never overlap. |
| FreeSlots.TakenKeeps | cgame/include/amemory.h:89-100 | Taking the first slot of a chunk keeps all byte-linked lists acyclic and of the counted length. |
| FreeSlots.GivenKeeps | cgame/include/amemory.h:110-118 | So does giving one back. |
| ChunkAllocator.SearchFindsExactly | cgame/include/amemory.h:169-183 | The search finds the owner of every slot if and only if no chunk begins where the one before ends. |
| ChunkAllocator.TouchingChunks | cgame/include/amemory.h:169-183 | The failing input: of two chunks that touch, the search takes the first slot of the second for one of the first. |
| ChunkAllocator.AtLeastThree | cgame/include/amemory.h:284-290 | More free slots than two chunks have need a third chunk: the list is never emptied. |
| ChunkAllocator.FixAllocator.InitChunk | cgame/include/amemory.h:45-62 | Every slot of a new chunk names the next, in one byte. |
| ChunkAllocator.FixAllocator.Alloc | cgame/include/amemory.h:250-265 | The block is new, apart from all others, whose bytes are untouched; lists, order and counts stay right, full chunks change lists. |
| ChunkAllocator.FixAllocator.FindChunk | cgame/include/amemory.h:169-183 | For a block handed out the chunk found is its own. |
| ChunkAllocator.FixAllocator.Reopen | cgame/include/amemory.h:270-283 | A full chunk gets a free slot and goes back to its place. |
| ChunkAllocator.FixAllocator.ReleaseChunk | cgame/include/amemory.h:202-223 | A chunk goes only when all its slots are free. |
| ChunkAllocator.FixAllocator.Free | cgame/include/amemory.h:267-291 | Any block handed out is taken back, and no other touched; its slot is the next of its chunk, and the chunk goes exactly when all its slots are free and more than two chunks' worth of slots are; lists and counts stay right, and one chunk with free slots is always left. |
| ChunkAllocator.FixAllocator.ObjCount | cgame/include/amemory.h:225-228 | The number computed is the number of blocks handed out. |
| BrushClip.GapMeansReach | cgame/collision/CDBrush.cpp:134-144 | A plane pushed out by the box's corner tells exactly whether some point of the box is not in front of the plane. |
| BrushClip.SweepInside | cgame/collision/CDBrush.cpp:98-225 | The whole sweep is inside exactly when its two ends are. |
| BrushClip.PassesThroughIs | cgame/collision/CDBrush.cpp:186-222 | Latest entry before earliest exit means that the sweep spends more than an instant behind all sides. |
| BrushClip.FromOutside | cgame/collision/CDBrush.cpp:186-222 | From outside: hit or not, when, and where the clip side then stands. |
| BrushClip.BrushTraceInfo.ClipBrush | cgame/collision/CDBrush.cpp:98-225 | For every tolerance not below 0: a hit exactly when the sweep starts inside or spends more than an instant behind all sides; then 0 <= fraction < 1 is the first such time, the clip plane is one of the brush, and the box is not behind it; allSolid means the whole sweep is inside; without a hit the result is not touched. |
| BrushClip.BrushTraceInfo.RayTraceBrush | cgame/collision/CDBrush.cpp:238-356 | The same for a point, which ignores bevel sides. |
| BrushClip.HitExactly | cgame/collision/CDBrush.cpp:98-225 | With tolerance 0 a hit from outside is reported if and only if the box spends a positive length of its sweep in the brush. |

## Left out

- Crash model: page writes are atomic and reach the disk in program order, a crash falls between any two of them, and it is the only fault. A failing read or write, which the source reports by an exception, is not modelled; opening a log file that is missing or unreadable ends a restore.
- Every table has taken part in one committed checkpoint (its log number is not 0), because `redo` skips tables whose number is 0 (`PWSL/include/db.h:2097`). The first log file of an empty collection is therefore given, not made.
- The number of record headers that fit in a key page is a positive parameter (a table name of more than 4000 characters leaves no room, and is not modelled); record slots that were never written read as zero. Log files hold records of one fixed set of tables.
- RedoLog: tables are identified by their place, not by name; sorting and the search by name are not modelled. `abort` and `truncate` of the logger are left out. File contents are opaque page images.
- Replay.PointInTime: the restore starts from tables copied while no record is open and with the log files at rest; the log writes of a restore that is itself cut short are not modelled.
- PageLogger, NullLogger and DBStandalone; `check_version`, `read_magic`, monitors, PageBrowser, PageRebuild and performance counters; unload and reload after a redo; backup thread, compression, cursors, configuration.
- BTree: keys are ranks, real numbers; `KeyOrder.RankOrders` and `Table.CompareAt` tie them to byte strings and to what `compare` reads. The leaf and inner variants of the shrink methods are one method each. Pages that come from the page allocator are zeroed, as those of the cache are.
- Table: the marks cover all that put and del write; the performance counters in the magic page, which the source changes without a mark, are not part of a page here, and the inline bytes of a slot are written only together with it. The record of a key is found by a second search where the source keeps a pointer to the slot. The packed header fields are separate fields, and the list links of free blocks replace record links in the same bytes. An empty key, which the storage layer refuses, is not put.
- DataHeap: the bytes of a block behind its size are not modelled; what a new block holds before it is written is unknown. Offsets are those of the 64-bit layout (4088 bytes used of a page).
- PageHash: a chain of pages is a sequence for each bucket, the mask is a remainder, and the library's sort is a function proved to sort.
- CachedFile and SnapshotLog: page images are opaque there; `Table.DirtySuffice` speaks of what the pages of a table hold, not of the bytes that encode it. The magic page, which the cache keeps apart, is a page image with a mark of its own.
- CachedFile.Run and SnapshotLog: a walk while a snapshot is open is not among the uses of a table; its cleanup (`PWSL/include/db.h:1564`, `PWSL/include/db.h:1583`) may drop pages of the snapshot, and `CachedFile.Cleanup` says exactly when. The tables share nothing, so their snapshots are taken one after the other with nothing in between. The uses fall between the writes of a commit to a table file and between its phases, not between two pages of the log, whose images they keep (`SnapsKept` in `CachedFile.Run`).
- TableLocks: a transaction names its tables before its first lock. The tables' mutex is the error-checking one of `share/common/mutex.h:194-236`; with another kind a second name would block instead. The key-size error that is raised before the first lock, whose cancel flag the lock then clears, is not modelled.
- TableUndo: values are as the compressor leaves them.
- ChunkAllocator: the system allocator returns chunks that do not overlap and with a byte between them; a chunk's address is a number. The spin lock around the calls is left out, and so are the other size classes of the allocator.
- ReaderWriterLock: the critical section under the spin lock is one step; a semaphore is its count, and any waiting thread may take it.
- BrushClip: reals instead of floats, so the sentinel values cannot be reached by rounding; `iClipPlane` is not described when there is no hit. Bevel generation and the quadtree are left out.
- `PWSL/include/cache.h`, the game servers, network and XML code: not part of this model.
