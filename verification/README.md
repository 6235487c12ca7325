# A verified model of pg_search's block storage and segment directory

pg_search keeps a tantivy index inside the pages of a Postgres index relation. This project models the
parts of it whose correctness rests on more than one function, and proves what they are for.

**Page storage.** `Storage` is the relation: its pages, the free space map, and the page operations. Pages
change in place; each update replaces one page under its lock. `BitPacking`, `ChunkStyle` and `BlockList`
are the chunked, delta-compressed list of block numbers that `LinkedBytes` keeps beside a chain of pages,
and `SegmentComponent` is the writer and the reader of one file on top of it. `SegmentComponent.WriteThenRead`
is the end-to-end result: what a writer wrote in any pieces comes back, for any range, on all three reading
paths. The allocator may hand out recycled blocks in any order.

**Segment directory.** `Block` holds the visibility rules of a segment entry. `LinkedItems` and
`GarbageCollection` are the list of entries: appending, looking up, and the collection that relinks pages
while readers walk them. `SegmentMetas` shows that saving refines an update of a map from segment id to
entry, and what other transactions see of it; `ReleasedFiles` is about the pages of the files a save lets go
of, and about all other pages.

**Protocols.** Five state machines take transactions, snapshots, locks, pages and blocks one step at a time
and prove what holds in every reachable state. `Transactions` is what they share: running ids and the
snapshots in use. `ListRuns` is about the pages of the list of entries, one page under its lock at a time, with
a collection, inserts that append without the merge lock, bulk deletes that change and move entries, readers,
and others that reuse the pages taken off; `ListResults` has what follows. `MergeRuns` is about inserting and
merging transactions, `VacuumSafety` about blocks that go back to the free space map, `CleanupLock` about scans
and any number of calls of `ambulkdelete`, and `MergePolicy` about how many segments there are. `MergeRuns` takes
its steps on entries with the very functions that `SegmentMetas` proves `save_new_metas` and garbage collection
refine; `Refinement` shows the same of the entries of `CleanupLock` and `VacuumSafety`, and that the blocks of
`VacuumSafety` are the pages of `Storage`. Steps are not guarded against the cases in which a promised property fails: where it fails of some
runs, the failing step is named, a run that takes it is exhibited (`ListExamples`, `MergeExamples`,
`VacuumSafety.UnsafeDropHappens`, `VacuumSafety.UnsafeRecordHappens`, `CleanupExamples`), and the property is
proved to hold of exactly the runs without it. `MergeOrder` and `CleanupOrder` prove what the merge lock's test of
the last merge achieves: if the lock is granted in order of snapshots, the failing steps of merges do not happen.

**Queries and tokens.** `RangeQuery` compiles the four range queries to trees of queries over the indexed
form of a range, and proves the trees mean the set relations they are named after. `CodeTokenizer` proves
the tokenizer's state machine equal to a declarative split, which is unique.

## What was found

- A save appends to the list of entries without the merge lock, and `add_items` looks for room along the
  pointers without looking at a page's xmax. So an insert may put its entry on a page that a collection, run by
  whoever has the merge lock, has emptied and marked and is about to take off the list; then nobody ever finds
  it (`ListExamples.AppendIsLost`). Once no collection is under way, an entry that was appended is on the list
  if and only if the page it was put on was neither marked then, nor made behind one that was, and no collection
  has removed it since (`ListResults.AppendedIsListedIff`, over all interleavings).
- A reader of the list reads page by page while bulk deletes move entries that outgrow their page. It loads
  every segment it may see exactly once, and once more for each time that the segment was moved from a page
  the reader had passed to one it had not come to (`ListResults.ReaderLoads`, `ListExamples.LoadedTwice`).
- Every snapshot in use, and everybody once all transactions are done, sees each document in exactly one
  segment if and only if no insert was lost in that way, no merge had an input that was merged before, and every
  snapshot in use sees the segments that its own transaction merged away inserted (`MergeRuns.EveryDocOnceIff`,
  over all runs). Each condition can fail (`MergeExamples.InsertIsLost` for the first). Two writers of one transaction may be open at once, a writable common table expression with
  two inserts for example; `acquire_for_merge` grants the lock to the second because the last merge is its own
  transaction's, and it merges again what the first has merged: the documents are in two segments for
  everybody, for good (`MergeExamples.OverlappingWritersDouble`, `MergeRuns.StaleRunDoubles`). And entries
  carry transaction ids only, no command ids, so an older snapshot of a transaction that merges under a newer
  one sees its own transaction's merges (`MergeExamples.OldSnapshotSeesTwice`).
- A bulk delete loads entries that are deleted already, and may drop them again. The new xmax makes the entry
  visible again to snapshots that regard the bulk delete as running, while the pages of its files keep the
  older mark until they are marked again. Dropping an entry is harmless to every reader, whatever follows, if
  and only if no page of its files carries a mark older than the id of who drops it
  (`VacuumSafety.DropIsSafeIff`); `VacuumSafety.UnsafeDropHappens` is a run up to a drop that is not.
- A page that is new counts as recyclable, `new_buffer` locks the block it has added only after the relation has
  grown, and `amvacuumcleanup` does not take the extension lock. If vacuum records the block in between, another
  backend may take it and make it a file of its segment before the first locks it and starts its own file on it
  (`VacuumSafety.UnsafeRecordShares`). Recording a new block is harmless if and only if whoever added it has
  locked it or is gone (`VacuumSafety.RecordIsSafeIff`).
- What `ambulkdelete` leaves out of its commit, because no document is left alive in it, keeps its old delete file
  and gets the vacuum's id as xmax. Until the vacuum's transaction is finished, a scan that pins after the call
  has returned still sees it and emits what was deleted (`CleanupExamples.LeftOutSegmentEmits`). The end of that
  transaction is no limit: a later call loads the segment again while its xmax is not removable, and may leave it
  out again under its own id, which shows the segment again to scans that see the first vacuum finished
  (`CleanupExamples.LeftOutAgainEmits`). Over any number of calls, a pinned scan can come to emit what a call
  deleted that has returned if and only if a segment left out, by that call or a later one, shows to its snapshot
  under the xmax it has (`CleanupLock.PinnedScanEmitsIff`).
- The way `ambulkdelete` drops the merge lock matters beyond mutual exclusion: because the drop records the
  vacuum's own id as the last merge, no writer that loaded its segments before the deletes of any call were
  committed is granted the lock afterwards, and no merge brings a deleted document back
  (`CleanupOrder.OrderedIsClean`, `CleanupLock.MergesKeepDeletes`). Two overlapping writers of one transaction get around that as well
  (`CleanupExamples.OverlappingWritersBringBack`); `CleanupGrants.GrantIsSafeIff` says exactly which grants are
  safe.
- `RangeContains` is right about every query range with bounds of the field's own type. `RangeIntersects` and `RangeWithin` are right exactly when
  the query range has room between its bounds, or has the form [x, x): `RangeQuery.IntersectsIsExact`,
  `RangeQuery.WithinIsExact`. For (5, 5), which is empty, `RangeIntersects` matches every range around 5.
  Integer bounds are made half open on a numeric range field too, so that (5 becomes [6 there: that changes the
  set of values exactly when a bound moves and the query range is not empty (`RangeQuery.CheckKeepsDenseIff`).
- `pack_1x`, `pack_4x` and `pack_8x` never check the initial value they are given. Decoding is right for
  every order of the slice and the initial value, except for a nondecreasing slice behind an initial value
  of 0 (`ChunkStyle.PackSliceIsExact`), which cannot arise because block 0 is never pushed.

## Reading the contracts

`Result` models the one error that the storage layer has: a relation cannot grow past the largest block
number. A failure implies `Full()`. Where the code panics, the contract either returns `None` or, where the
panic means that a caller broke the rules, states the rule as a `requires`. Ghost out-parameters and ghost
fields name the chain of pages or the bytes that a list stands for. Statements of the form `hide F;` only
keep definitions away from the solver.

## Model

| member | source | states |
|---|---|---|
| Block.RecyclableIsInvisible | pg_search/src/postgres/storage/block.rs:325-358 | an entry that garbage collection may remove is visible to no view still in use |
| Block.RecyclableIff | pg_search/src/postgres/storage/block.rs:336-359 | and the converse: an entry may be removed if and only if no view at or above the horizon can see it, except that one which a single transaction both made and deleted stays until the horizon has passed that transaction |
| Block.FreezeKeepsVisibility | pg_search/src/postgres/storage/block.rs:361-393 | freezing xmin or xmax below a limit every view in use has passed changes what none of them sees, nor the entry's id or length |
| Block.FreezeKeepsRecyclability | pg_search/src/postgres/storage/block.rs:336-393 | a frozen entry is recyclable if and only if it was before |
| Block.FreezeMeans | pg_search/src/postgres/storage/block.rs:361-393 | after freezing, no id of a transaction below the limit is left in the entry, and all else is as it was |
| Storage.Relation.NewBuffer | pg_search/src/postgres/storage/utils.rs:97-130 | a page off the free space map is returned only if nobody has it locked and it is recyclable when locked, otherwise a new page at the end, and that only if the map has nothing recyclable that is not locked; no page in use is handed out, no page changes, and the loop ends |
| Storage.Relation.LinkNewPage | pg_search/src/postgres/storage/linked_bytes.rs:210-231 | an initialised page that was not in use is linked behind the last one and nothing else in use changes |
| Storage.Relation.MarkDeleted | pg_search/src/postgres/storage/buffer.rs:214-220 | the page's xmax becomes the next transaction id and no other page changes |
| Storage.Relation.VacuumCleanup | pg_search/src/postgres/vacuum.rs:33-53 | the free space map gains exactly the recyclable pages |
| Storage.MarkedPageIsProtected | pg_search/src/postgres/storage/utils.rs:46-70 | a page marked deleted is not recyclable at any horizon up to the id it was marked with |
| Storage.PageIsRecyclableIff | pg_search/src/postgres/storage/utils.rs:46-70 | a page is recyclable if and only if it is new or marked with an id below the horizon: a marked page becomes so once the horizon has passed the mark |
| Storage.SparesBystanders | pg_search/src/postgres/storage/utils.rs:97-130 | what a growing list leaves alone, all that cannot be recycled yet, includes every page in use |
| BitPacking.WordRoundTrip | pg_search/src/postgres/storage/blocklist.rs:139-181 | a 32-bit word survives its four little-endian bytes |
| BitPacking.WordBytes | pg_search/src/postgres/storage/blocklist.rs:139-181 | the four bytes of a word are little-endian |
| BitPacking.PackRoundTrip | pg_search/src/postgres/storage/blocklist.rs:301-380 | fixed-width packing of values that fit the width is undone by unpacking |
| BitPacking.DeltaRoundTrip | pg_search/src/postgres/storage/blocklist.rs:301-380 | differences modulo 2^32, less 1 or not, are undone for any order of the values |
| BitPacking.WidthFor | pg_search/src/postgres/storage/blocklist.rs:301-380 | the width chosen is the least that fits every difference, and at most 32 |
| ChunkStyle.Chunk.IntoBytes | pg_search/src/postgres/storage/blocklist.rs:106-181 | the encoding of a chunk has exactly the length that byte_len announces |
| ChunkStyle.PackSlice | pg_search/src/postgres/storage/blocklist.rs:301-380 | a packed chunk is well formed and fits on an empty page |
| ChunkStyle.PackSliceRoundTrip | pg_search/src/postgres/storage/blocklist.rs:301-380 | a packed slice decodes to itself, whatever its order and the order of the initial value, if that is not 0 |
| ChunkStyle.PackSliceIsExact | pg_search/src/postgres/storage/blocklist.rs:301-380 | a packed slice decodes to itself if and only if the initial value is not 0 or the slice is not nondecreasing |
| ChunkStyle.DecodeIntoBytes | pg_search/src/postgres/storage/blocklist.rs:139-181 | a chunk followed by anything decodes to its values and its exact length |
| ChunkStyle.DecodesIffChunk | pg_search/src/postgres/storage/blocklist.rs:404-513 | bytes decode if and only if they begin with the encoding of a well-formed chunk; anything else is a panic |
| ChunkStyle.DecodeEncodedPage | pg_search/src/postgres/storage/blocklist.rs:404-513 | decoding a page of chunks yields all their values in order and stops exactly at the page's end |
| BlockList.Builder.Push | pg_search/src/postgres/storage/blocklist.rs:215-235 | chunks and queue together are what was pushed with consecutive repeats removed; every chunk is of 128 numbers, and starts from the last number of the one before |
| BlockList.Builder.ChunkQueue | pg_search/src/postgres/storage/blocklist.rs:237-264 | cutting the queue loses and repeats nothing at chunk boundaries; it is cut into as many chunks of 128, then of 32, as it has room for, and one of what is left, each from the last number of the one before |
| BlockList.Builder.Finish | pg_search/src/postgres/storage/blocklist.rs:237-298 | the pages written are fresh and decode to what was pushed with consecutive repeats removed; none are written when nothing was pushed |
| BlockList.FillPages | pg_search/src/postgres/storage/blocklist.rs:266-298 | the page-filling loop ends, every append succeeds, and the linked pages decode to all the chunks |
| BlockList.ReadBlockList | pg_search/src/postgres/storage/blocklist.rs:397-516 | walking the pages decodes them in order; no list gives no blocks |
| BlockList.ReadPage | pg_search/src/postgres/storage/blocklist.rs:404-513 | the offset loop over one page is its recursive decoding |
| BlockList.DedupOfDistinct | pg_search/src/postgres/storage/blocklist.rs:215-235 | block numbers without repeats come back unchanged |
| LinkedBytes.LinkedBytesList.Create | pg_search/src/postgres/storage/linked_bytes.rs:169-193 | a new list is empty, on two pages that were not in use |
| LinkedBytes.LinkedBytesList.Write | pg_search/src/postgres/storage/linked_bytes.rs:195-243 | after any write the content is what was there followed by the bytes, every page but the last is full, header and block list agree with the chain, and other pages are as they were |
| LinkedBytes.LinkedBytesList.Flush | pg_search/src/postgres/storage/linked_bytes.rs:80-88 | the block list stored decodes to the chain of data pages |
| LinkedBytes.PageOfByte | pg_search/src/postgres/storage/linked_bytes.rs:294-310 | byte k of the content is at offset k % ITEM_SIZE of page k / ITEM_SIZE |
| LinkedBytes.LinkedBytesList.BlockForOrd | pg_search/src/postgres/storage/linked_bytes.rs:96-102 | the n-th entry of the decoded block list is the n-th page of the chain |
| LinkedBytes.LinkedBytesList.GetCachedRange | pg_search/src/postgres/storage/linked_bytes.rs:294-310 | a range on one page is cut out of the cached page |
| LinkedBytes.LinkedBytesList.GetBytesRange | pg_search/src/postgres/storage/linked_bytes.rs:312-348 | the bytes of the range, whether from one page or from a walk; the panic exactly when the first page does not exist |
| LinkedBytes.LinkedBytesList.WalkRange | pg_search/src/postgres/storage/linked_bytes.rs:323-346 | the loop over several pages collects exactly the range |
| LinkedBytes.LinkedBytesList.ReadAll | pg_search/src/postgres/storage/linked_bytes.rs:245-260 | the concatenation of the pages is the content |
| LinkedBytes.LinkedBytesList.IsEmpty | pg_search/src/postgres/storage/linked_bytes.rs:282-284 | the first page is empty if and only if the content is |
| LinkedBytes.LinkedBytesList.MarkDeleted | pg_search/src/postgres/storage/linked_bytes.rs:262-280 | header, data chain and block list chain are marked with the next transaction id, whether they were marked before or not, and nothing else changes |
| LinkedBytes.StoredIsDeletable | pg_search/src/postgres/storage/linked_bytes.rs:262-280 | every list that was flushed can be marked |
| SegmentComponent.ExactBuffer.Write | pg_search/src/index/writer/segment_component.rs:77-118 | passed-on blocks followed by the buffered prefix are all input, the buffer is not full, and only blocks of exactly the capacity were passed on |
| SegmentComponent.ExactBuffer.Flush | pg_search/src/index/writer/segment_component.rs:120-126 | the buffered prefix is passed on, even if empty, and all input has reached the list |
| SegmentComponent.ExactBuffer.PassBlocks | pg_search/src/index/writer/segment_component.rs:99-107 | the chunking loop passes on whole blocks and leaves less than one |
| SegmentComponent.SegmentComponentWriter.Write | pg_search/src/index/writer/segment_component.rs:44-48 | the input grows by the data, and total_bytes counts it |
| SegmentComponent.SegmentComponentWriter.Terminate | pg_search/src/index/writer/segment_component.rs:56-60 | the stored list holds all input with its index, and the file entry names its header and length |
| SegmentComponent.StoredPages | pg_search/src/postgres/storage/block.rs:110-113 | a stored list has as many pages as its length needs, and at least one |
| SegmentComponent.SegmentComponentReader.Npages | pg_search/src/index/reader/segment_component.rs:45-52 | the cached count is the header's count less one |
| SegmentComponent.SegmentComponentReader.LastBlockno | pg_search/src/index/reader/segment_component.rs:35-43 | the cached block is the last of the chain |
| SegmentComponent.SegmentComponentReader.ReadBytesRaw | pg_search/src/index/reader/segment_component.rs:54-72 | the bytes of the range that exist, on the last-page short cut, from one cached page, or from a walk |
| SegmentComponent.WriteFile | pg_search/src/index/writer/segment_component.rs:43-61 | any writes and flushes leave a stored file with their concatenation, and pages in use before are as they were |
| SegmentComponent.WriteThenRead | pg_search/src/index/reader/segment_component.rs:54-72 | any writes and flushes, terminated and reopened: range a..b reads a..min(b, total) of the concatenated input whenever a is below total |
| LinkedItems.LinkedItemList.Create | pg_search/src/postgres/storage/linked_items.rs:102-124 | a new list has one empty page, named in the header, on pages that were not in use |
| LinkedItems.LinkedItemList.AddItems | pg_search/src/postgres/storage/linked_items.rs:213-264 | ends; adds every item exactly once from the start page or the held page on, moves no item there, keeps the chain linked and without cycles, names the last page linked in the header and counts those linked there, and changes no other page that cannot be recycled yet; a call that nobody else changes the list beside, which ListRuns is about |
| LinkedItems.LinkedItemList.LookupEx | pg_search/src/postgres/storage/linked_items.rs:270-303 | the first entry in list order that satisfies the test, with its block and offset; an error exactly when there is none |
| LinkedItems.FindItem | pg_search/src/postgres/storage/buffer.rs:233-247 | the first item on the page that satisfies the test, if any |
| LinkedItems.OneFits | pg_search/src/postgres/storage/linked_items.rs:213-264 | every entry fits on an empty page, so a fresh page ends the search for room |
| GarbageCollection.FreezeLimit | pg_search/src/postgres/storage/utils.rs:193-234 | the freeze limit is the largest normal id that is old enough and not past the oldest transaction that matters, or else the first normal id |
| GarbageCollection.CleanPage | pg_search/src/postgres/storage/linked_items.rs:143-170 | a page keeps, in order, exactly the entries that some view that may be in use can see, and those that one transaction both made and deleted which the horizon has not passed; every id below the freeze limit is frozen |
| GarbageCollection.KeptAreSurvivors | pg_search/src/postgres/storage/linked_items.rs:143-170 | what collection keeps of any entries is exactly those, so an entry is removed if and only if it is none of them |
| GarbageCollection.FrozenFits | pg_search/src/postgres/storage/linked_items.rs:150-161 | the frozen version of an entry always replaces it in place |
| GarbageCollection.KeptKeepsVisible | pg_search/src/postgres/storage/linked_items.rs:143-161 | a view that may still be in use sees the same segments in what collection keeps as in what there was |
| GarbageCollection.KeptTwice | pg_search/src/postgres/storage/linked_items.rs:143-161 | collecting what was collected changes nothing |
| GarbageCollection.GarbageCollect | pg_search/src/postgres/storage/linked_items.rs:126-211 | ends with the start page and the old pages something is left on, in order, holding in order exactly the entries that some view that may be in use can see, and those that one transaction both made and deleted which the horizon has not passed; ids below the freeze limit are frozen; every other page is marked deleted; one page is written at a time and every state on the way is safe for readers; a call that nobody appends beside, which ListRuns is about |
| GarbageCollection.StayedCover | pg_search/src/postgres/storage/linked_items.rs:163-207 | a page stays if and only if it is the start page or something is left on it |
| GarbageCollection.WalkSeesEverything | pg_search/src/postgres/storage/linked_items.rs:136-207 | a reader whose page reads interleave in any way with the collection's page writes finds exactly the segments its view saw before, also from a page already emptied and unlinked |
| GarbageCollection.OthersDoNoHarm | pg_search/src/postgres/storage/utils.rs:46-70 | while others reuse what is recyclable for them, at horizons up to the collection's mark, no page of the old chain is reused, and every state is still safe for readers |
| GarbageCollection.WalkAmidOthers | pg_search/src/postgres/storage/linked_items.rs:136-207 | the same of every reader that takes its snapshot before the collecting transaction ends, among the collection and other backends who reuse what the running transactions and the snapshots in use let them |
| GarbageCollection.SkippingLosesNothing | pg_search/src/postgres/storage/linked_items.rs:172-207 | leaving out pages with nothing left on them loses no surviving entry |
| SegmentMetas.Organize | pg_search/src/index/directory/utils.rs:98-110 | every drained file is filed under its segment and component, and of several for one component one is kept |
| SegmentMetas.CreatedEntry | pg_search/src/index/directory/utils.rs:125-157 | a new entry has the transaction's id as xmin, no xmax, and the file of each component that has one |
| SegmentMetas.ModifiedEntry | pg_search/src/index/directory/utils.rs:187-194 | only the delete file of a modified entry changes |
| SegmentMetas.AfterMeans | pg_search/src/index/directory/utils.rs:98-215 | what the save makes of the map, said of the metas and the drained files: a segment named now and not before, with files, is new; one named before and not now gets the xmax; one named both times, with files, gets the drained delete file with the number of deleted documents; nothing else of any entry changes |
| SegmentMetas.CreatedMeans | pg_search/src/index/directory/utils.rs:125-157 | the entry of a new segment has the drained file of exactly the components that have one, and the numbers of documents of its meta |
| SegmentMetas.FilesOfIff | pg_search/src/index/directory/utils.rs:257-272 | the files of an entry that a save marks are the files of all eight components, field by field |
| SegmentMetas.NoFileIsLost | pg_search/src/index/directory/utils.rs:98-230 | with one file per component, every drained file is in the entry of its segment or is handed back unchanged, and not both |
| SegmentMetas.OnlyDrainedHandedBack | pg_search/src/index/directory/utils.rs:217-230 | nothing is handed back that was not drained, nor a file of a segment that was saved |
| SegmentMetas.HandsBackAll | pg_search/src/index/directory/utils.rs:222-230 | the directory is extended with exactly the files left over |
| SegmentMetas.FindAll | pg_search/src/index/directory/utils.rs:203-214 | every id looked up is found with the entry the map has and the block it is on |
| SegmentMetas.Overwrite | pg_search/src/index/directory/utils.rs:276-288 | replacing an item in its slot replaces one entry of the map and moves no other; an entry of no greater length always fits |
| SegmentMetas.Move | pg_search/src/index/directory/utils.rs:288-297 | deleting an item and adding its new version from the held page on replaces one entry of the map and moves no other |
| ReleasedFiles.MarkFiles | pg_search/src/index/directory/utils.rs:257-272 | every page of each of the files is marked deleted, again if it was before, and no other page changes |
| ReleasedFiles.StillOnDisk | pg_search/src/index/directory/utils.rs:236-305 | the files to be marked are there all through a save, whatever pages the list takes meanwhile |
| SegmentMetas.DeleteEntries | pg_search/src/index/directory/utils.rs:236-273 | every deleted id gets the transaction's id as xmax, which always fits in place; the files let go of are exactly those that some deleted entry names in any of its eight fields; exactly their pages are marked deleted, and no other page outside the list changes |
| SegmentMetas.ModifyEntries | pg_search/src/index/directory/utils.rs:276-298 | every modified id gets its new delete file, in place or elsewhere in the list; exactly the replaced delete files are returned, to be marked once all are replaced; no page changes that is not the list's and cannot be recycled |
| SegmentMetas.CreateEntries | pg_search/src/index/directory/utils.rs:125-161 | one entry for each new segment that has files |
| SegmentMetas.SaveNewMetas | pg_search/src/index/directory/utils.rs:69-314 | the list goes from representing a map to representing the map with created ids added, modified ids changed in their delete entry only, deleted ids given xmax and others untouched, collected if anything was deleted; exactly the pages of the files that deleted segments name, in whatever field, and of replaced delete files are marked deleted, and all other pages outside the list that cannot be recycled are as they were; a save that nobody appends beside, which ListRuns is about |
| SegmentMetas.CollectRefines | pg_search/src/index/directory/utils.rs:307-311 | garbage collection of the list is dropping the recyclable entries from the map and freezing the rest |
| SegmentMetas.CollectedMeans | pg_search/src/index/directory/utils.rs:307-311 | a segment is left in the map exactly when some view that may be in use can see it, or one transaction both made and deleted it and the horizon has not passed that; ids below the freeze limit are frozen |
| SegmentMetas.SaveIsAtomic | pg_search/src/index/directory/utils.rs:236-311 | who sees the saving transaction sees the segments with the deleted ones gone and the created ones there, who does not sees the segments there were |
| SegmentMetas.LoadMetas | pg_search/src/index/directory/utils.rs:316-375 | the loops over pages and offsets load, in list order, exactly the entries the mode wants; the opstamp is the largest of theirs, or 0; schema and settings are the bytes saved |
| SegmentMetas.LoadRefines | pg_search/src/index/directory/utils.rs:316-351 | what is loaded is exactly the wanted part of the map the list represents, each segment once, and the entries considered are the map's, of a list that is not saved to meanwhile, for which see ListResults.ReaderLoads |
| SegmentMetas.LoadMeans | pg_search/src/index/directory/utils.rs:316-351 | under a snapshot exactly the segments it sees are loaded; in the other mode exactly those that some view at or above the horizon can see, or that one transaction both made and deleted and the horizon has not passed; each once, with the number of its documents and, if it has a delete file, of those deleted |
| SegmentMetas.OpstampMeans | pg_search/src/index/directory/utils.rs:353-375 | the opstamp is the largest of the loaded entries' ids, xmax before xmin, or 0 if nothing is loaded |
| ListRuns.InvHolds | pg_search/src/postgres/storage/linked_items.rs:126-264 | in every run, pages of the list for good are linked in order, what points at a page taken off was marked no later, every entry is on one page of the list or being moved, and what readers have loaded and are to come to adds up |
| ListRuns.AstrayIsOff | pg_search/src/postgres/storage/linked_items.rs:223-260 | an append comes to a page that is somebody else's by then only from a full page off the list |
| ListResults.ListedIsEntry | pg_search/src/postgres/storage/linked_items.rs:126-264 | with no collection under way, who follows the pointers from the start page finds exactly the entries that were appended to the list and not removed |
| ListResults.AppendedIsListedIff | pg_search/src/postgres/storage/linked_items.rs:213-264 | whatever happens before and after, once no collection is under way an entry appended is found on the list if and only if the page it was put on was not marked deleted then, nor made behind one that was, and no collection has found the entry recyclable since |
| ListResults.StrayIsLost | pg_search/src/postgres/storage/linked_items.rs:223-260 | nor is the entry of an append that went astray ever on the list |
| ListResults.VisibleIsOwed | pg_search/src/postgres/storage/block.rs:325-334 | what a snapshot sees is among what a reader under it owes |
| ListResults.ReaderOwes | pg_search/src/index/directory/utils.rs:316-351 | what was on the list when a reader starts and is not deleted before its snapshot, the reader owes |
| ListResults.ReaderLoads | pg_search/src/index/directory/utils.rs:316-351 | over all interleavings, a reader at the end has loaded everything it owes, once, and once more for each time the entry was moved from a page it had passed to one it had not come to |
| ListResults.ReusedPageIsUnread | pg_search/src/postgres/storage/utils.rs:46-70 | no page is reused that a reader under a snapshot in use is about to read |
| ListExamples.AppendIsLost | pg_search/src/index/directory/mvcc.rs:204-231 | a run in which an insert appends to a page that a collection has marked and not taken off yet, and its entry is on the list for nobody |
| ListExamples.LoadedTwice | pg_search/src/index/directory/utils.rs:276-297 | a run in which a reader loads a segment from the page it was moved from and from the page it was moved to |
| MergeRuns.BaseHolds | pg_search/src/index/directory/utils.rs:125-215 | in every run, stamps, loaded segments and what collection and freezing left on disk are consistent with what was ever written |
| MergeRuns.FreshHolds | pg_search/src/index/directory/utils.rs:125-215 | in every run with fresh merges, each document has a line of segments in which every one but the last was merged into the next |
| MergeRuns.FreshOnceIff | pg_search/src/index/directory/utils.rs:125-215 | after fresh merges, a view sees each document that was not lost and that it should see in exactly one segment, and no other such document, if and only if it sees inserted what its own transaction merged away |
| MergeRuns.StaleMergeDoubles | pg_search/src/index/directory/utils.rs:203-215 | the first merge of an input that was merged before puts a document into two unmerged segments, or twice into one |
| MergeRuns.StaleRunDoubles | pg_search/src/index/directory/utils.rs:203-215 | a run with such a merge anywhere in it ends with a document doubled, whatever follows the merge |
| MergeRuns.EveryDocOnceIff | pg_search/src/index/directory/utils.rs:125-215 | over all runs, with any number of writers of a transaction under any of its snapshots: every snapshot in use and the one that sees all transactions finished see each document they should in exactly one segment and no other, if and only if no insert was lost to a collection beside it, every merge was fresh and every snapshot in use sees inserted what its own transaction merged away |
| MergeRuns.LostRunMisses | pg_search/src/postgres/storage/linked_items.rs:213-264 | a run with a lost insert anywhere in it ends with a document in no segment, whatever follows |
| MergeRuns.MissingIsUnseen | pg_search/src/postgres/storage/linked_items.rs:213-264 | no view ever sees such a document, though its transaction counts as finished |
| MergeRuns.KeptRunHasLines | pg_search/src/index/directory/utils.rs:125-215 | without lost inserts every document inserted has its line of segments |
| MergeRuns.SoleTransactionLosesNothing | pg_search/src/index/directory/mvcc.rs:204-231 | a transaction that runs by itself loses no insert, however many writers it has |
| MergeOrder.OrderedIsFresh | pg_search/src/index/merge_policy.rs:63-92 | if the lock is granted in order, to writers not overtaken by a merge of their own transaction, every merge of the run is fresh |
| Transactions.LaterIsNotOlder | pg_search/src/index/merge_policy.rs:63-92 | a snapshot that a transaction takes later is never the older one, which is what granting in order asks for |
| MergeOrder.HolderIsCurrent | pg_search/src/index/merge_policy.rs:63-92 | who holds the lock has loaded no segment that anyone has merged, and finds all of them in the list |
| MergeOrder.InputsAreCurrent | pg_search/src/index/directory/utils.rs:203-215 | so no merge of an ordered run panics on a missing entry, and the inputs of two merges are disjoint |
| MergeOrder.NewEnoughSeesOnce | pg_search/src/postgres/storage/block.rs:325-334 | in an ordered run every reader sees each document that was not lost once, and so does every snapshot of a writing transaction not older than the one it was last granted the lock under; without lost inserts, every document |
| MergeExamples.OverlappingWritersDouble | pg_search/src/postgres/insert.rs:81-104 | a run in which two writers of one transaction are open at once, both are granted the lock, and a document ends in two segments for everybody |
| MergeExamples.InsertIsLost | pg_search/src/index/directory/mvcc.rs:204-231 | an ordered run with fresh merges only, in which an insert beside a holder of the merge lock is lost and its document is in no segment for anybody |
| MergeExamples.OnlyOthersAreExposed | pg_search/src/index/merge_policy.rs:63-92 | a run in which a writer that another transaction opens beside the holder of the lock may lose inserts, and the holder's own may not |
| MergeExamples.AllIsClosed | pg_search/src/index/merge_policy.rs:89-114 | a run after which lock, writers and snapshots are gone and the last merge is recorded |
| MergeExamples.OldSnapshotSeesTwice | pg_search/src/index/merge_policy.rs:63-94 | an ordered run after which a transaction's older snapshot sees a document in two segments |
| MergeRuns.FadingShowsToNobody | pg_search/src/postgres/storage/linked_items.rs:143-161 | garbage collection and freezing on the way change what no snapshot in use sees |
| VacuumSafety.InvHolds | pg_search/src/postgres/storage/linked_bytes.rs:262-280 | in every run in which drops, and records of new blocks, are safe, blocks of entries in use are theirs alone, and those of deleted entries are marked no earlier than the entry was deleted, or still to be marked |
| VacuumSafety.ReadableIsUntouchable | pg_search/src/postgres/vacuum.rs:41-49 | in every such run, bulk deletes of deleted entries and blocks just added included, no block that a snapshot in use may read is in the free space map, is recyclable, is about to be made a page, or is being written, including replaced delete files opened before |
| VacuumSafety.StepSparesReaders | pg_search/src/index/directory/utils.rs:235-302 | no step of such a run returns such a block to the free space map, hands it out, or removes the entry of a loaded segment |
| VacuumSafety.DropIsSafeIff | pg_search/src/postgres/delete.rs:47-54 | dropping an entry can do no reader harm, whatever happens after it but further drops and records of new blocks, if and only if no page of its files carries a mark older than the id of who drops it |
| VacuumSafety.UnsafeDropFrees | pg_search/src/postgres/vacuum.rs:41-49 | after any other drop there is a continuation in which a block that a snapshot in use may read is in the free space map |
| VacuumSafety.UnsafeDropHappens | pg_search/src/index/directory/utils.rs:203-273 | a safe run up to a bulk delete that is about to drop a deleted entry whose block is marked with an older id |
| VacuumSafety.RecordIsSafeIff | pg_search/src/postgres/storage/utils.rs:97-130 | recording a new block as free can do no reader harm, whatever happens after it but drops and further such records, if and only if whoever added the block has locked it or is gone |
| VacuumSafety.UnsafeRecordShares | pg_search/src/postgres/vacuum.rs:41-49 | after any other such record there is a continuation in which a block of a file that a snapshot in use may read is started anew for another file |
| VacuumSafety.UnsafeRecordHappens | pg_search/src/postgres/storage/utils.rs:118-130 | a run up to a record of a block that was added and is not locked yet |
| VacuumSafety.BlockIsReused | pg_search/src/postgres/vacuum.rs:33-53 | a safe run in which the block of a segment merged away is marked, returned by vacuum, and becomes a block of another segment |
| CleanupLock.ScorerIter.Next | pg_search/src/index/reader/index.rs:873-903 | the next document that is alive, or none once there is no more |
| CleanupLock.OnlyAliveEmitted | pg_search/src/index/reader/index.rs:880-899 | a document comes out if and only if it matches and is alive |
| CleanupLock.FindDead | pg_search/src/postgres/delete.rs:59-74 | exactly the ctids of any segment that the callback calls dead are deleted, and did_delete says whether there is one |
| CleanupLock.InvHolds | pg_search/src/postgres/delete.rs:47-107 | the invariant of the handshake holds in every run, with any number of calls, failed and cancelled ones among them, in which no grant goes to a writer that has anything alive of what is deleted for good |
| CleanupLock.PinnedScansAreSafe | pg_search/src/postgres/delete.rs:47-107 | over all such interleavings, no scan that pinned before it loaded and holds the pin can emit what any call deleted that has returned, unless a segment that some commit left out with the document alive shows to the scan's snapshot |
| CleanupLock.PinnedScanEmitsIff | pg_search/src/index/directory/utils.rs:203-215 | exactly then: a scan that has pinned and not loaded can come to emit what any call deleted that has returned if and only if such a segment shows to its snapshot under the xmax it has now |
| CleanupLock.FinishedVacuumIsSafe | pg_search/src/postgres/storage/block.rs:325-334 | so a document is not emitted if the snapshot sees finished every vacuum that left a segment out with the document alive in it, the one that deleted it or a later one |
| CleanupLock.MergesKeepDeletes | pg_search/src/index/merge_policy.rs:89-114 | from the commit on, no segment that shows to a snapshot in use and was not left out under the xmax it has has a deleted document alive, whatever is merged by writers that loaded before |
| CleanupOrder.OrderedIsClean | pg_search/src/index/merge_policy.rs:63-114 | if the lock is granted in order, no grant ever goes to a writer that has anything alive of what calls before have deleted |
| CleanupOrder.AskerSeesVacuum | pg_search/src/index/merge_policy.rs:100-114 | whoever is granted the lock in order sees the last vacuum finished that has released it |
| CleanupGrants.GrantIsSafeIff | pg_search/src/index/merge_policy.rs:63-92 | granting the lock, at any time, can let no pinned scan emit what was deleted, whatever happens after it but further grants, if and only if the writer has nothing alive, in the segments of the list, of what is deleted for good |
| CleanupGrants.UncleanGrantLeaks | pg_search/src/index/merge_policy.rs:63-92 | after any other grant there is a continuation, in which everyone finishes, that ends with a pinned scan emitting what was deleted |
| CleanupExamples.UnpinnedScanEmits | pg_search/src/index/reader/index.rs:276-282 | a run in which a scan without a pin emits a deleted document after the call, so the pin is needed |
| CleanupExamples.LeftOutSegmentEmits | pg_search/src/index/directory/utils.rs:203-215 | a run in which the commit leaves a wholly dead segment out and a scan that pins after the call emits from it |
| CleanupExamples.LeftOutAgainEmits | pg_search/src/postgres/delete.rs:47-107 | a run in which a second call leaves the segment out again after the first vacuum has ended, and a pinned scan whose snapshot sees the first finished emits what the first call deleted |
| CleanupExamples.OverlappingWritersBringBack | pg_search/src/postgres/insert.rs:81-104 | a run in which a writer that loaded before the deletes is granted the lock after another writer of its own transaction, brings back what was deleted, and a pinned scan emits it |
| CleanupExamples.CallsFail | pg_search/src/postgres/delete.rs:47-107 | a run in which one call fails before its commit and one is cancelled while it waits: nothing is left of either but the deletes of the second |
| CleanupExamples.AllIsClosed | pg_search/src/postgres/storage/linked_items.rs:143-161 | a run in which a segment merged away is collected once nobody can see it |
| CleanupExamples.WriterRereads | pg_search/src/index/directory/utils.rs:316-351 | a run in which a writer that reads a delete file again has what is alive by then |
| MergePolicy.ComputeMergeCandidates | pg_search/src/index/merge_policy.rs:28-52 | nothing below n + min segments; otherwise exactly count - n are merged and none has more live documents than any that stays |
| MergePolicy.MergeLockPage.AcquireForMerge | pg_search/src/index/merge_policy.rs:63-92 | granted exactly when the page is free and the last merge is visible, and then recorded |
| MergePolicy.MergeLockPage.ReconsiderMergePolicy | pg_search/src/index/directory/mvcc.rs:250-298 | no merge after a bulk insert, which sets the target to one less than the segments; otherwise a merge to the larger of parallelism and target if the lock is granted |
| MergePolicy.CommitAndMerge | pg_search/src/index/directory/mvcc.rs:250-298 | one commit changes segment count, target and last merge as the run lemmas assume, and the total of live documents is that of the old and the created segments; a merge with nothing alive in it leaves no segment |
| MergePolicy.AlwaysBounded | pg_search/src/index/directory/mvcc.rs:250-298 | after every commit of every run there are at most max(parallelism, target) + 1 segments, and those made since the lock was last granted |
| MergePolicy.SerialIsGranted | pg_search/src/index/merge_policy.rs:63-114 | commits of one transaction after the other are always granted the lock they ask for, so there are at most max(parallelism, target) + 1 segments after each |
| MergePolicy.TargetIsReached | pg_search/src/index/directory/mvcc.rs:270-276 | a target above zero is one less than the number of segments right after some bulk insert of the run |
| MergePolicy.MergeKeepsDocs | pg_search/src/index/merge_policy.rs:28-52 | the segments left and the segments merged have all the live documents there were |
| MergePolicy.NumDocsCounts | pg_search/src/index/merge_policy.rs:28-52 | the number of live documents is that of the documents less the deleted ones |
| Refinement.InsertIsSave | pg_search/src/index/directory/utils.rs:69-161 | an insert of the machine about scans lists what saving one new segment lists |
| Refinement.MergeIsSave | pg_search/src/index/directory/utils.rs:69-215 | a merge of that machine lists what saving one segment in the place of its inputs lists |
| Refinement.CommitIsSave | pg_search/src/postgres/delete.rs:76-90 | the commit of its deletes lists what saving with the left-out segments deleted lists |
| Refinement.LoadsAreLoads | pg_search/src/index/directory/utils.rs:316-351 | its writers, scans and bulk deletes load what load_metas loads in the mode of each |
| Refinement.CollectIsCollection | pg_search/src/postgres/storage/linked_items.rs:143-161 | it may collect exactly the segments that garbage collection removes |
| Refinement.CreateIsSave | pg_search/src/index/directory/utils.rs:125-161 | a new entry of the machine about blocks has for each file what saving one new segment gives it |
| Refinement.DropIsSave | pg_search/src/index/directory/utils.rs:203-273 | a drop of that machine is a save with one segment deleted, and leaves to be marked exactly the blocks of the files that save lets go of |
| Refinement.ReplaceIsSave | pg_search/src/index/directory/utils.rs:165-298 | its replacing of a delete file is a save with one segment modified, and leaves to be marked the blocks of the replaced file |
| Refinement.BlockLoadsAreLoads | pg_search/src/index/directory/utils.rs:316-351 | its readers and bulk deletes load what load_metas loads, and a reader that opens a component holds the blocks of its file |
| Refinement.CollectEntryIsCollection | pg_search/src/postgres/storage/linked_items.rs:143-161 | it may collect exactly the entries that garbage collection removes |
| Refinement.BlockIsPage | pg_search/src/postgres/storage/utils.rs:46-70 | its blocks are found free exactly when their pages are recyclable, and are marked and made anew as pages are |
| RangeQuery.CheckKeepsTheSet | pg_search/src/query/mod.rs:397-470 | making bounds half open changes no set of integers or of dates |
| RangeQuery.CheckKeepsDenseIff | pg_search/src/query/mod.rs:403-407 | integer bounds on a field of another numeric type keep the set of values if and only if neither moves or the query range is empty |
| RangeQuery.CheckKeepsBounds | pg_search/src/query/mod.rs:397-470 | each bound keeps the integers, or the dates, on its side, and bounds of timestamps and other numbers are left alone |
| RangeQuery.CheckFailsIff | pg_search/src/query/mod.rs:397-470 | making bounds half open overflows if and only if a lower bound that excludes, or an upper one that includes, is the last of its type |
| RangeQuery.MatchesByInclusive | pg_search/src/query/range.rs:85-137 | the choice of comparison by the inclusive flag compares a bound as the stored range means it |
| RangeQuery.SubsetIffBounds | pg_search/src/query/mod.rs:890-1048 | a nonempty range is a subset exactly when both bounds are within |
| RangeQuery.MeetIffCross | pg_search/src/query/mod.rs:1049-1221 | two nonempty ranges share a value exactly when their bounds cross both ways |
| RangeQuery.ContainsMeansSubset | pg_search/src/query/mod.rs:890-1048 | RangeContains matches a stored range exactly when it is a subset of the query range, for every query range |
| RangeQuery.IntersectsMeansMeet | pg_search/src/query/mod.rs:1049-1221 | RangeIntersects matches exactly when the ranges share a value, for query ranges that are unbounded on a side, or whose end, once they are made half open, is not before their start; of a dense type, whose lower bound is below the upper or is the same value and included |
| RangeQuery.WithinMeansSuperset | pg_search/src/query/mod.rs:1328-1497 | RangeWithin matches exactly when the stored range is a superset, for the same query ranges |
| RangeQuery.NonemptyIsSupported | pg_search/src/query/mod.rs:1049-1221 | every query range with a value in it is among those |
| RangeQuery.IntersectsIsExact | pg_search/src/query/mod.rs:1049-1221 | RangeIntersects is right about every stored range if and only if the query range is among those |
| RangeQuery.WithinIsExact | pg_search/src/query/mod.rs:1328-1497 | RangeWithin is right about every stored range if and only if the query range is among those |
| RangeQuery.EmptyQueryRangeMatches | pg_search/src/query/mod.rs:1049-1221 | [v, v) for any value v, which is how an empty range of Postgres is passed, meets no stored range and is within every one |
| RangeQuery.UnsupportedQueryRange | pg_search/src/query/mod.rs:1049-1221 | (5, 5) is empty and yet RangeIntersects matches [1, 10] |
| RangeQuery.TermMeansMember | pg_search/src/query/mod.rs:1222-1327 | RangeTerm matches exactly the stored ranges that have the value |
| RangeQuery.NullNeverMatches | pg_search/src/query/mod.rs:890-1497 | no tree matches a document without a range |
| CodeTokenizer.CodeTokenStream.AdvanceState | tokenizers/src/code.rs:106-181 | one step of the state machine keeps the split of what was read, and first-character exactly when the token starts at the current character |
| CodeTokenizer.CodeTokenStream.Finalize | tokenizers/src/code.rs:183-196 | at the end of the text what is being read is the last token |
| CodeTokenizer.CodeTokenStream.Advance | tokenizers/src/code.rs:41-65 | the next token of the split with its byte offsets, text and position, or none once the split is complete; the loop ends |
| CodeTokenizer.CodeTokenStream.UpdateToken | tokenizers/src/code.rs:77-83 | slicing by byte offsets gives the characters of the token |
| CodeTokenizer.Tokenize | tokenizers/src/code.rs:19-65 | the tokens of a text are the declarative split: nonempty, ordered, disjoint, covering exactly what is alphabetic or numeric, cut where the flags of the characters say |
| CodeTokenizer.SplitIsUnique | tokenizers/src/code.rs:106-181 | a text has one such split |
| CodeTokenizer.TokenCharacters | tokenizers/src/code.rs:106-213 | a character is in a token of the split if and only if it is alphabetic or numeric |
| CodeTokenizer.CutsOfSplit | tokenizers/src/code.rs:106-213 | two such characters next to each other are in different tokens if and only if one is alphabetic and one is not; or the first is not uppercase and the second is; or both are and an alphabetic one that is not uppercase follows |
| CodeTokenizer.LenUtf8IsLeast | tokenizers/src/code.rs:41-83 | the bytes of a character in the offsets are as many as UTF-8 needs for its code |

## Left out

- LinkedBytes.LinkedBytesList.Flush: the handle's own copy of the header is left behind by the code, so nothing is promised of the handle afterwards; the list is reopened.
- LinkedItems.LinkedItemList.AddItems: one call, beside which nobody changes the list; calls beside each other, beside a collection and beside readers are ListRuns.
- GarbageCollection.GarbageCollect: one call, beside which nobody appends; calls beside appends are ListRuns. The code leaves the header's last block and page count as they were, which may then be wrong, and nothing is claimed of them.
- SegmentMetas.SaveNewMetas: one save, beside which nobody appends, which only the holder of the merge lock can rely on for deletes and changes; saves beside each other are ListRuns, by page, and MergeRuns, by entry. Paths are taken as already parsed. That new segment ids are new is required, and that the files of the segments loaded before are there and not yet free for reuse, which is what VacuumSafety proves.
- ListRuns.InvHolds: a collection or a change of an entry is not given up midway, as whoever does it holds a page lock; a block counts as somebody else's as soon as it is taken, and what an append writes on a page that is somebody else's is not followed.
- SegmentMetas.LoadMetas: schema and settings are bytes; decoding them is not part of this model.
- MergeRuns.EveryDocOnceIff: no bulk delete in the run; a writer's transaction has its id when the writer opens; an insert may be lost whenever another transaction has had the merge lock since its writer opened, of which ListResults.AppendedIsListedIff says by page when it is.
- VacuumSafety.ReadableIsUntouchable: the drops and the records of new blocks must be safe, which VacuumSafety.DropIsSafeIff and VacuumSafety.RecordIsSafeIff show is needed; one vacuum of an index at a time, at horizons that do not go back; the pages of the entry list itself are not among the blocks.
- CleanupLock.PinnedScansAreSafe: calls of ambulkdelete one after the other, in one transaction or several, each of which may fail before its commit or be cancelled while it waits for the pins; grants must be clean, which CleanupGrants.GrantIsSafeIff shows is needed; what the callback calls dead is not inserted again before the call is over. Which wholly dead segments the tantivy library leaves out of a commit is not part of this model: any of them may be.
- MergePolicy.SerialIsGranted: commits one after the other, each seeing all segments, and the same parallelism throughout.
- RangeQuery.ContainsMeansSubset: the bounds are of the type of the field's values; of integer bounds on another numeric field, RangeQuery.CheckKeepsDenseIff says when their set is kept. Where adding one to a bound overflows, which RangeQuery.CheckFailsIff says when, nothing more is stated; unsigned bounds behave as signed ones. Bounds of dates and timestamps are given as text, whose parsing is not part of this model: a date is a whole number of days, a timestamp a value of a dense order.
- The `exists` query of a range field is taken to match every document that has a range.
- Transaction ids are unbounded: wraparound, subtransactions, crash recovery and the write-ahead log are not modelled. Commit and abort are one step, because visibility does not tell them apart.
- Bit packing is a library of its own; it is defined here as fixed-width packing of differences, and its lane order is not modelled.
- Page headers, item identifiers and serialised entries appear as lengths only.
- Snapshots, horizons, the free space map and locks of Postgres are parameters or steps with the guarantees stated in Storage and Transactions.
- Unicode classes of a character are fields of the character.
- Scoring, collectors, the query parser, other query types, other tokenizers, the worker thread of the index writer, configuration and telemetry.
