# AggreKV, modelled and proved

AggreKV simulates key-value SSDs in user space.  This project models the parts of it whose
correctness is hardest to see and proves what they promise.

- **Hash store** (`hash_kvssd/hash_hot_cmt`).  `BlockManager` is one partition of the flash block
  manager with its superblock allocator.  `TransPages` is the mapping table paged to flash, with its
  eviction and its garbage collection.  `Packing` is the packing of items of one to four grains into
  pages.  `Items` and `DataGc` are the data partition, its garbage collection and the placing of a
  full write buffer.  `ProbeTable` is the hashed table of keys above all that: the retry machine of
  the write path and the walk of the read path; `OwnBatch` is a run of it.  `HotTable` is the hot mapping table with its
  incremental rehash and key cache.
- **LSM tree** (`lsmtree_kvssd`).  `PageCodec` is the byte layout of metadata pages, `PipeMerger` the
  merge of two page streams, `LevelLookup` the searches of a level, `Compaction` the levels, their
  leveling and the cascade, `SkipList` (with `Memtable`) the skip lists of both stores and the
  cutting of the memtable into page-sized pieces.
- **Ring** (`block_ssd/tools/rte_ring`).  `RteRing` takes the lock-free ring one shared access at a
  time, with 32-bit wrapping counters, for any interleaving of any threads.
- **NAND** (`hash_kvssd/lower`).  `Nand` is striping, latency and in-order writing.

`Keys`, `Counting`, `Arith` and `Common` are shared: the order of keys, counting in sequences,
remainders, a few constants.

Objects that the source updates in place are classes and its loops are loops; a method is proved
against functions and predicates of its state, and the laws about those are lemmas.  `dafny verify
dfyconfig.toml` checks everything.

## What turned out differently

Some promises do not hold of the code as it is.  For each, the code is modelled as it is, and the
project states when the promise holds.

- A compaction reads a level from the first run that does not end before `key_min`, 255 zero bytes
  (`lsmtree_kvssd/array/array.c:285-304`).  Shorter strings of zero bytes come before that key, so
  runs holding only such keys are skipped and their entries lost: `Compaction.ZeroKeysAreLost` is a
  run of three compactions, of pieces as the cut of a memtable hands them over, that loses a key.  `Compaction.LevelingExact` says exactly when a leveling
  loses nothing, `Compaction.Lsm.Compact` that whole compactions lose nothing while no run is skipped.
- A translation page that the write path updates after it left memory without a flash copy is then
  neither in memory nor on flash (`hash_kvssd/hash_hot_cmt/dftl_cache.c:1423-1445`), and a read that
  comes to it answers that the key does not exist.  `ProbeTable.KvStore.Get` says when reads do that,
  `ProbeTable.OrphanRun` and `ProbeTable.StoredIsMissed` are a run with a cache of one page in which
  one does.  No stored key is missed as long as no page has ever left memory with neither a copy nor
  changes, and none with a cache that takes more pages than there are.  In between it takes an entry
  waiting while the page it has brought in is evicted again; with the 65536 pages the store is
  configured for and the least recently used one leaving, whether a batch of 256 entries can bring
  that about is not settled here.
- Data garbage collection can take the items of the batch it makes room for, which are placed and not
  yet mapped: it copies them under slot 0, the label they carry, and erases the place the write buffer
  has for them.  `DataGc.Store.DpageGc` keeps every item and its owner if and only if the victim holds
  none of them.  `OwnBatch.CollectOwnBatch` is a run of full write buffers from an empty store, with three
  data superblocks and any hash that spreads its 512 keys, at the end of which it does; and
  `DataGc.Store.PlaceBatch` stops before a collection of that kind.
- When the survivors of a collection need all pages of the reserve, `dp_alloc` hands out the page
  behind it (`hash_kvssd/hash_hot_cmt/dftl_pg.c:71-110`); `DataGc.Store.DpAlloc` says exactly when,
  `Packing.ThreesWasteGrains` that it can happen.
- After a rehash an entry may lie beyond its fifty probes, where no lookup finds it; promoting it again
  makes a second entry for it, and the next rehash, which makes entries single again, counts both and
  loses the bytes of the key cached with the one replaced.  `HotTable.RehashDoubles` is a run, for
  tables of many sizes and the configured one among them (`HotTable.ConfiguredSpread`),
  `HotTable.PromotedDistinct` and `HotTable.Table.Rehash` say exactly when entries stay single and the
  count is right.
- The ring's comments say that the free count of an enqueue is always between 0 and the capacity, and
  the entries a dequeue counts between 0 and the size less one; neither holds when the head read is
  stale (`RteRing.FreeBeyondCapacity`, `RteRing.EntriesBeyondSize`; exactly when is said by
  `RteRing.FreeWithinCapacity` and `RteRing.EntriesWithinSize`), but then the compare-and-swap fails
  (`RteRing.ProducerSwaps`, `RteRing.ConsumerSwaps`).
- The latency of a NAND erase passes through 32 bits (`Nand.Ssd.Trim`).
- `skiplist_delete` leaves `all_length` as it was (`SkipLists.SkipList.Delete`), and a memtable of one
  key leaves its run without an end key (`PageCodec.EncodeTable`), so leveling is stated for
  memtables of two keys or more, which is what the cut hands over.

## Model

| member | source | states |
|---|---|---|
| `RteRing.RunsAreSafe` | block_ssd/tools/rte_ring/rte_ring_generic.h:56-100 | After any timely interleaving of any number of producers and consumers the four counters are ordered and at most the capacity apart, the 32-bit fields are their images, reservations in flight on one side are disjoint and cover the whole gap between tail and head, and every object received is the one sent at that position. |
| `RteRing.PublishedInSlots` | block_ssd/tools/rte_ring/rte_ring.h:293-359 | Until it is released every published object is in the slot of its position modulo the ring's size. |
| `RteRing.StepKeeps` | block_ssd/tools/rte_ring/rte_ring_generic.h:56-100 | Every single shared-memory access of any thread, a failed compare-and-swap included, keeps the ring invariant; the test of a tail in `update_tail` and the store to it are two of them. |
| `RteRing.RunKeeps` | block_ssd/tools/rte_ring/rte_ring_generic.h:126-167 | The invariant holds after whole runs, provided fewer than 2^32 positions are handed out between a head read and its compare-and-swap. |
| `RteRing.ProducerSwaps` | block_ssd/tools/rte_ring/rte_ring_generic.h:92-98 | A producer's compare-and-swap on the 32-bit head succeeds exactly when no position was handed out since it read the head, and then its reservation fits the ring. |
| `RteRing.ConsumerSwaps` | block_ssd/tools/rte_ring/rte_ring_generic.h:160-166 | The same for consumers: success exactly when the head has not moved, and only published positions are claimed. |
| `RteRing.TurnToPublish` | block_ssd/tools/rte_ring/rte_ring_generic.h:13-30 | A producer that `update_tail` lets through is the one holding the oldest unpublished position: tails are published in reservation order. |
| `RteRing.TurnToRelease` | block_ssd/tools/rte_ring/rte_ring_generic.h:13-30 | Consumers release in reservation order likewise. |
| `RteRing.HistoryOnlyGrows` | block_ssd/tools/rte_ring/rte_ring_generic.h:56-167 | No step changes an object sent or received, and a position is received at most once, with the object sent there. |
| `RteRing.DequeueIsFifo` | block_ssd/tools/rte_ring/rte_ring_generic.h:126-167 | A dequeue returns consecutive positions of the send order, the oldest not yet released. |
| `RteRing.RefusalIsHonest` | block_ssd/tools/rte_ring/rte_ring_generic.h:76-90 | A producer gives up exactly when it has nothing to enqueue or the entries beyond the head it read are, but for multiples of 2^32, fewer than it asks for; with a head less than 2^32 entries behind, the ring then really lacks the room. |
| `RteRing.ReservesMost` | block_ssd/tools/rte_ring/rte_ring_generic.h:76-95 | A producer goes on with all its objects if there is room for them beyond the head it read, and else with none, or, for a partial enqueue, with exactly as many as there is room for, counted modulo 2^32, which is the true room while the head is current. |
| `RteRing.AloneReserves` | block_ssd/tools/rte_ring/rte_ring_generic.h:56-100 | With no other thread in between a producer has, after three accesses, as many positions as there was room for, the next of the ring, for the first of its objects; or it is refused, exactly then as that says. |
| `RteRing.EndsWithItsCount` | block_ssd/tools/rte_ring/rte_ring_generic.h:13-100 | The count an enqueue returns is that of the positions it publishes, which hold its first objects in order; it is 0 exactly at a refusal. |
| `RteRing.CallStarts` | block_ssd/tools/rte_ring/rte_ring.h:452-582 | A call to enqueue or dequeue begins with the objects, or the number, and the behaviour given. |
| `RteRing.EnqueueStays` | block_ssd/tools/rte_ring/rte_ring_generic.h:60-98 | However often its compare-and-swap fails, an enqueue goes on with the objects and the behaviour it was called with. |
| `RteRing.OldestCanMove` | block_ssd/tools/rte_ring/rte_ring_generic.h:13-30 | While an enqueue is in flight the one with the oldest reservation can take a step: producers waiting in `update_tail` never deadlock. |
| `RteRing.OldestCanRelease` | block_ssd/tools/rte_ring/rte_ring_generic.h:13-30 | Nor do consumers: the oldest dequeue in flight can take a step. |
| `RteRing.FreeWithinCapacity` | block_ssd/tools/rte_ring/rte_ring_generic.h:76-82 | The free count a producer computes is at most the capacity exactly while the entries beyond the head it read are, but for multiples of 2^32; with a head less than 2^32 entries behind, exactly while no slot behind it was released. |
| `RteRing.FreeBeyondCapacity` | block_ssd/tools/rte_ring/rte_ring_generic.h:76-82 | A run that refutes the source comment that the count is always between 0 and the capacity: two free entries on a ring for one object. |
| `RteRing.EmptyIsHonest` | block_ssd/tools/rte_ring/rte_ring_generic.h:138-157 | A dequeue gives up exactly when it asks for nothing or too few entries are published beyond the head it read, and then as honestly. |
| `RteRing.ClaimsMost` | block_ssd/tools/rte_ring/rte_ring_generic.h:146-160 | A consumer goes on with as many objects as it asked for if they are published beyond the head it read, and else with none, or, for a partial dequeue, with all that are, counted in the same way. |
| `RteRing.AloneClaims` | block_ssd/tools/rte_ring/rte_ring_generic.h:126-167 | With no other thread in between a consumer has so many after three accesses, the oldest not claimed. |
| `RteRing.EndsWithItsObjects` | block_ssd/tools/rte_ring/rte_ring_generic.h:126-167 | The objects a dequeue returns are those of the positions it releases, in order; there are none exactly at a refusal. |
| `RteRing.DequeueStays` | block_ssd/tools/rte_ring/rte_ring_generic.h:130-165 | And a dequeue with the number and behaviour it was called with. |
| `RteRing.EntriesWithinSize` | block_ssd/tools/rte_ring/rte_ring_generic.h:146-152 | The entries a consumer counts are at most the size less one exactly while those published beyond the head it read are, but for multiples of 2^32; they are while none of these was released. |
| `RteRing.EntriesBeyondSize` | block_ssd/tools/rte_ring/rte_ring_generic.h:146-152 | A run that refutes the comment on them: a consumer counts two entries in a ring of size two. |
| `RteRing.Sub32Exact` | block_ssd/tools/rte_ring/rte_ring_generic.h:76-82 | The wrapped 32-bit subtraction gives the true distance whenever that fits 32 bits. |
| `RteRing.SlotOfWrapped` | block_ssd/tools/rte_ring/rte_ring.h:293-325 | A wrapped counter and the true one fall on the same slot. |
| `Arith.RemIsMod` | block_ssd/tools/rte_ring/rte_ring.h:293-325 | The remainder by which counters wrap and slots are masked is `%`. |
| `BlockManager.SearchFinds` | hash_kvssd/hash_hot_cmt/dftl_bm.c:231-312 | While collection is not needed, the search for an active superblock never fails and finds an empty one that is not the reserve. |
| `BlockManager.Manager.GetActive` | hash_kvssd/hash_hot_cmt/dftl_bm.c:231-312 | The first superblock behind the cursor that is neither full nor the reserve, else the first such one before it, and NULL exactly when there is none but perhaps the cursor's own; with no cursor yet the first such superblock takes its place. The free count drops exactly when the one found was empty. |
| `BlockManager.AfterActivate` | hash_kvssd/hash_hot_cmt/dftl_bm.c:231-312 | Making the superblock found active keeps the allocator's state right: the free count is the number of empty superblocks and all others but the active one are full. |
| `BlockManager.AfterPage` | hash_kvssd/hash_hot_cmt/dftl_bm.c:202-206 | So does taking a page of an active superblock with room. |
| `BlockManager.AfterCollection` | hash_kvssd/hash_hot_cmt/dftl_pg.c:606-638 | So does a collection: the victim becomes the empty reserve, the old reserve the active superblock with room. |
| `BlockManager.NoCollectionAtFirst` | hash_kvssd/hash_hot_cmt/dftl_bm.c:415-431 | With at least three superblocks no collection is needed before the first allocation. |
| `BlockManager.Manager.GetGcTarget` | hash_kvssd/hash_hot_cmt/dftl_bm.c:433-500 | The victim is the first full non-reserve superblock with the fewest valid grains; none is found exactly when every full one has all its grains valid. |
| `BlockManager.NoTargetMeansFull` | hash_kvssd/hash_hot_cmt/dftl_bm.c:433-500 | With collection needed and no victim every superblock but the reserve is full of valid grains. |
| `BlockManager.TargetUnique` | hash_kvssd/hash_hot_cmt/dftl_bm.c:473-499 | There is one such superblock at most. |
| `BlockManager.CountsAfterSet` | hash_kvssd/hash_hot_cmt/dftl_bm.c:159-179 | Setting or clearing one grain's bit together with its superblock's counter keeps every counter equal to the number of set bits. |
| `BlockManager.Manager.ValidateGrain` | hash_kvssd/hash_hot_cmt/dftl_bm.c:164-172 | One bit is set; counters stay exact. |
| `BlockManager.Manager.InvalidateGrain` | hash_kvssd/hash_hot_cmt/dftl_bm.c:174-179 | One bit is cleared; counters stay exact. |
| `BlockManager.Manager.ValidatePage` | hash_kvssd/hash_hot_cmt/dftl_bm.c:141-148 | The four bits of a page are set and nothing else; counters stay exact. |
| `BlockManager.Manager.InvalidatePage` | hash_kvssd/hash_hot_cmt/dftl_bm.c:150-157 | The four bits of a page are cleared and nothing else; counters stay exact. |
| `BlockManager.Manager.GetPageNum` | hash_kvssd/hash_hot_cmt/dftl_bm.c:202-206 | The page at the write pointer, even past the superblock's end, because the assertion against it is compiled out. |
| `BlockManager.Manager.IsGcNeeded` | hash_kvssd/hash_hot_cmt/dftl_bm.c:415-431 | In any state of the allocator collection is needed exactly when no superblock but the reserve is empty. |
| `BlockManager.Manager.Trim` | hash_kvssd/hash_hot_cmt/dftl_bm.c:502-517 | A superblock without valid grains becomes empty and its out-of-band records are cleared, those of no other. |
| `TransPages.Bijection` | hash_kvssd/hash_hot_cmt/dftl_pg.c:467-525 | In every state between operations the valid MAP pages and the entries with a flash copy are in bijection, and a dirty entry has none. |
| `TransPages.Cache.TpageGc` | hash_kvssd/hash_hot_cmt/dftl_pg.c:606-638 | Collecting translation pages keeps forward and reverse map in agreement and which entries have a copy; it writes fewer pages than a superblock has; it aborts exactly when there is no victim. |
| `TransPages.Cache.ReadValidTpages` | hash_kvssd/hash_hot_cmt/dftl_pg.c:467-494 | Every valid page of the victim is taken off, each entry once, leaving the victim without a valid grain. |
| `TransPages.Cache.WriteValidTpages` | hash_kvssd/hash_hot_cmt/dftl_pg.c:496-525 | Every entry on the move gets a page of the reserve, and the maps agree again. |
| `TransPages.Cache.TpAlloc` | hash_kvssd/hash_hot_cmt/dftl_pg.c:112-131 | A page inside the active superblock that no one uses, a collection on the way keeping all maps; or an abort, exactly when the active superblock is full, collection is needed and there is no victim. |
| `TransPages.Cache.RoomyNotStuck` | hash_kvssd/hash_hot_cmt/dftl_pg.c:112-131 | While there are no more entries than pages outside the reserve, an entry without a copy can always be written. |
| `TransPages.CopiesBound` | hash_kvssd/hash_hot_cmt/dftl_pg.c:112-131 | The count behind it: with all those pages valid copies and one entry without, there are more entries than pages. |
| `TransPages.Cache.Update` | hash_kvssd/hash_hot_cmt/dftl_cache.c:1423-1445 | One slot is rewritten; the entry gives up its flash copy and is dirty if it is in memory; the maps stay in agreement. |
| `TransPages.Cache.ListUp` | hash_kvssd/hash_hot_cmt/dftl_cache.c:1222-1385 | An entry comes into memory; a victim is written to flash exactly if it is dirty, which is what the result tells, and it aborts exactly when that takes a page that cannot be had; no entry loses the copy it has or the changes it carries. |
| `TransPages.Cache.BulkMappingUpdate` | hash_kvssd/hash_hot_cmt/dftl_pg.c:371-465 | The slots of moved items, and only those, point to their new places with their fingerprints, whatever mix of entries in memory and on flash, even for two nodes of one slot; of their pages those in memory are dirty and without a copy, the others clean and with one, and no other page changes in that; the maps agree even when a page allocation collects in between; it aborts only with a missing entry to write and no page to be had, and never while pages suffice for all entries. |
| `TransPages.Cache.UpdateHits` | hash_kvssd/hash_hot_cmt/dftl_pg.c:384-418 | First loop of that: hits are patched in memory and their pages dirty; the flash copies of hits and of missing entries are given up, and no others. |
| `TransPages.Cache.RewriteMisses` | hash_kvssd/hash_hot_cmt/dftl_pg.c:426-460 | Second loop: each run of nodes of one missing entry is patched and its page written once; it aborts only where no page can be had. |
| `TransPages.SortPermutes` | hash_kvssd/hash_hot_cmt/dftl_pg.c:30-41 | Sorting the nodes by slot keeps them all, each as often as it was there. |
| `Packing.GreedyIsOptimal` | hash_kvssd/hash_hot_cmt/dftl_pg.c:282-331 | No arrangement of the same items on four-grain pages uses fewer pages than filling each page with the longest item that fits. |
| `Packing.PackConserves` | hash_kvssd/hash_hot_cmt/dftl_wb.c:291-352 | Packing places every item exactly once and overfills no page. |
| `Packing.PackCount` | hash_kvssd/hash_hot_cmt/dftl_pg.c:282-331 | The number of pages is a closed formula of the numbers of items of each length. |
| `Packing.GreedyPage` | hash_kvssd/hash_hot_cmt/dftl_wb.c:291-352 | Each page filled lowers the number of pages still needed by exactly one. |
| `Packing.LowerBound` | hash_kvssd/hash_hot_cmt/dftl_pg.c:282-331 | Any packing whatever needs at least that many pages. |
| `Packing.ThreesWasteGrains` | hash_kvssd/hash_hot_cmt/dftl_pg.c:282-331 | Items of three grains need a page each, so that a collection can need all pages it read though a quarter of the grains is free. |
| `Packing.FillPageConserves` | hash_kvssd/hash_hot_cmt/dftl_wb.c:312-349 | One page takes out of the buckets exactly the items it receives. |
| `Items.ScanMeetsStart` | hash_kvssd/hash_hot_cmt/dftl_pg.c:160-197 | Scanning a page grain by grain and skipping whole items meets valid items at their first grain only. |
| `DataGc.RedirectKeepsMeaning` | hash_kvssd/hash_hot_cmt/dftl_pg.c:535-604 | With the gathered slots pointed to copies of the same length, every slot keeps its meaning and none points into the victim. |
| `DataGc.Store.DpageGc` | hash_kvssd/hash_hot_cmt/dftl_pg.c:535-604 | Data collection of any victim: it becomes the empty reserve with its records cleared, and the pages written are those of the optimal packing of its items, never more than the pages read, whose number it returns. Layout and ownership of all items, and with them which slots are mapped, their fingerprints and item lengths, are kept if and only if the victim held no item of a batch that is placed and not yet mapped. It aborts only without a victim or where no translation page can be written; with translation pages enough, exactly without a victim. |
| `OwnBatch.FlushBuffer` | hash_kvssd/hash_hot_cmt/dftl_wb.c:697-763 | A full buffer of 256 items of one length is flushed: they lie on as many pages as they need, the next of the active superblock or the first of an empty one, and those of another buffer stay where they are. |
| `OwnBatch.FillStore` | hash_kvssd/hash_hot_cmt/dftl_wb.c:697-763 | A run of 2044 such flushes from an empty store of three data superblocks, which leaves 64 pages: one buffer keeps its 256 pages in the superblock that is full, the other one, stored again and again, lies on the last 64 pages written. |
| `OwnBatch.PlaceUntilDue` | hash_kvssd/hash_hot_cmt/dftl_wb.c:291-352 | A batch too large for the pages left is placed on all of them, and then a collection is due. |
| `OwnBatch.StoreAtRisk` | hash_kvssd/hash_hot_cmt/dftl_wb.c:291-352 | The run ends so with the second buffer, now of four grains an item: the victim of the collection due is the superblock the batch has just filled. |
| `OwnBatch.CollectOwnBatch` | hash_kvssd/hash_hot_cmt/dftl_pg.c:535-604 | That collection: every item the batch has placed has its place erased, no grain there valid and the record cleared. |
| `DataGc.Store.BulkReadPages` | hash_kvssd/hash_hot_cmt/dftl_pg.c:345-369 | Read are exactly the victim's pages with a valid grain, in order. |
| `DataGc.Store.ScanPage` | hash_kvssd/hash_hot_cmt/dftl_pg.c:160-197 | All items of a page are taken and wait in their buckets, and no grain of the page is valid afterwards. |
| `DataGc.Store.CollectItems` | hash_kvssd/hash_hot_cmt/dftl_pg.c:148-197 | All items of the victim are gathered, once each, with their slots and lengths; they came from as many pages as were read. |
| `DataGc.Store.WriteItems` | hash_kvssd/hash_hot_cmt/dftl_pg.c:277-332 | The gathered items are laid down in the empty reserve, labelled with slot and length, on as many pages as the greedy packing has. |
| `DataGc.Store.WritePage` | hash_kvssd/hash_hot_cmt/dftl_pg.c:284-330 | One page is filled as the packing says, overlapping nothing that was valid. |
| `DataGc.Store.CopyVictim` | hash_kvssd/hash_hot_cmt/dftl_pg.c:148-343 | Read and write together: the victim holds nothing any more, and the copies fit the reserve. |
| `DataGc.Store.DpAlloc` | hash_kvssd/hash_hot_cmt/dftl_pg.c:71-110 | An unused page inside the active superblock; or, when a collection's survivors need all its pages and exactly then, the page behind the superblock's end; or an abort, which takes a collection that is due and has no victim or cannot write the mapping, and with translation pages enough is exactly the first. The store stays right if and only if no collection is due or its victim holds no item of the running batch. |
| `DataGc.Store.PlaceBatch` | hash_kvssd/hash_hot_cmt/dftl_wb.c:270-352 | Every item of a full write buffer gets its own grains inside one page, labelled with its length, and no mapped slot changes its meaning. It does, without touching the mapping, whenever the pages free without a collection are those the packing needs, and takes the next of one superblock, in order, if that has them; each of the other three results comes with its condition. |
| `DataGc.Store.AtRisk` | hash_kvssd/hash_hot_cmt/dftl_pg.c:71-110 | Whether the next allocation would collect items of the batch, decided exactly. |
| `DataGc.Store.FillBuckets` | hash_kvssd/hash_hot_cmt/dftl_wb.c:271-286 | The batch is in the buckets by length, every item once. |
| `Keys.CmpMeans` | lsmtree_kvssd/lsmtree/lsm_settings.h:70-83 | The comparison is the lexicographic order of byte strings: its sign tells before, equal or after. |
| `Keys.Trichotomy` | hash_kvssd/hash_hot_cmt/dftl_wb.c:46-61 | That order is total and irreflexive. |
| `Keys.BeforeTransitive` | hash_kvssd/hash_hot_cmt/dftl_wb.c:46-61 | And transitive. |
| `ProbeTable.OneSlotPerKey` | hash_kvssd/hash_hot_cmt/dftl_wb.c:415-678 | A key is stored in at most one slot. |
| `ProbeTable.StoreKeeps` | hash_kvssd/hash_hot_cmt/dftl_wb.c:647-678 | Storing a key where its probe walk ends, in an empty slot or its own, keeps every stored key reachable and every fingerprint right. |
| `ProbeTable.LookupExact` | hash_kvssd/hash_hot_cmt/demand.c:249-436 | The walk over counts 0 to the largest ever used finds exactly the stored keys, each in its slot. |
| `ProbeTable.MeaningKeepsTable` | hash_kvssd/hash_hot_cmt/dftl_pg.c:535-604 | Garbage collection at any point leaves all that untouched. |
| `ProbeTable.TrackSurvives` | hash_kvssd/hash_hot_cmt/demand.c:231-444 | A read suspended on its walk stays on the way to its key, whatever other keys are stored in between. |
| `ProbeTable.WrittenMore` | hash_kvssd/tools/d_htable.c:26-46 | The batch table keeps listing exactly the slots the batch has written. |
| `ProbeTable.OtherKey` | hash_kvssd/hash_hot_cmt/dftl_wb.c:554-573 | A slot that the fingerprint or the batch table rules out really holds another key. |
| `ProbeTable.TriesSpread` | hash_kvssd/hash_hot_cmt/demand.c:177-202 | The first try is at the hash, and each goes two positions further from the last than that from the one before, in 32 bits; the slot is that position modulo the table. |
| `ProbeTable.NextSlot` | hash_kvssd/hash_hot_cmt/demand.h:30-33 | Without a wrap in 32 bits the slot tried behind count c is 2c + 2 slots further, modulo the table. |
| `ProbeTable.CollideRun` | hash_kvssd/hash_hot_cmt/dftl_wb.c:363-695 | A run on an empty store of any size: of two keys of one hash the first is stored in the slot of the hash modulo the table, the second two slots further. |
| `ProbeTable.KvStore.Advance` | hash_kvssd/hash_hot_cmt/dftl_wb.c:415-678 | One entry, resumed anywhere in its retry states, runs until it is stored or has to wait, keeps every table invariant and comes closer to its end; it fails only if its walk passes all 1025 slots or no translation page can be written. |
| `ProbeTable.KvStore.Finish` | hash_kvssd/hash_hot_cmt/dftl_wb.c:647-678 | An entry is stored: slot, fingerprint, key and out-of-band label are set, the old item's grains are given up. |
| `ProbeTable.KvStore.Remap` | hash_kvssd/hash_hot_cmt/dftl_wb.c:647-677 | One slot changes from its old item to the placed one; layout, ownership and counters stay right. |
| `ProbeTable.KvStore.Check` | hash_kvssd/hash_hot_cmt/dftl_wb.c:545-641 | What a slot in memory tells an entry: store here exactly if it is empty, walk on at once exactly if its fingerprint differs or the batch has written it, else compare the key read, which stores here or goes on. |
| `ProbeTable.KvStore.Acquire` | hash_kvssd/hash_hot_cmt/dftl_wb.c:490-544 | Before a slot is checked its page is brought into memory, and it is there unless the entry had to wait for the page put out for it; else the entry is queued where it resumes, closer to its end. |
| `ProbeTable.KvStore.MappingUpdate` | hash_kvssd/hash_hot_cmt/dftl_wb.c:363-695 | In whatever order entries come ready, the update ends with every key of the batch stored with its own item and every other key untouched; it fails only over a key whose walk passes all 1025 slots, of which it never stores one, and then too has touched no other key, or for want of a translation page. |
| `ProbeTable.KvStore.ReadOn` | hash_kvssd/hash_hot_cmt/demand.c:231-444 | A read stretch finds only its own key, passes readable pages only, and misses a stored key only at a translation page that is neither in memory nor on flash and, when it began, had no copy and no changes in memory; no page loses either. |
| `ProbeTable.KvStore.Get` | hash_kvssd/hash_hot_cmt/demand.c:231-444 | A whole read misses a stored key whenever its walk meets a page neither in memory nor on flash, and finds it whenever all pages on its walk have a copy or changes in memory; as long as it evicts no page without a copy, it misses a stored key if and only if the walk meets an unreadable page. In a store no page has ever left without a copy or changes, and in one whose cache takes more pages than there are, no stored key is missed. |
| `ProbeTable.KvStore.UnreadableIsOrphan` | hash_kvssd/hash_hot_cmt/dftl_cache.c:1193-1220 | A page of a stored key that is neither in memory nor on flash was updated by the write path after it had left memory without a copy. |
| `ProbeTable.KvStore.AllBacked` | hash_kvssd/hash_hot_cmt/dftl_cache.c:1222-1445 | While no page has left memory without a copy or changes, every page on the walk of a stored key has one or the other. |
| `ProbeTable.KvStore.BringIn` | hash_kvssd/hash_hot_cmt/dftl_cache.c:1222-1342 | A page comes into memory, in a full cache and only then for another one, so that there are never more than it takes; no page loses its copy or changes, none other than those two becomes readable or unreadable, and the store stays right. |
| `ProbeTable.OrphanRun` | hash_kvssd/hash_hot_cmt/dftl_cache.c:1423-1445 | A run from an empty store with a cache of one page: two batches, at the end of which a key is stored on such a page. |
| `ProbeTable.StoredIsMissed` | hash_kvssd/hash_hot_cmt/demand.c:231-444 | After that run a read answers that the key does not exist. |
| `ProbeTable.KvStore.Flush` | hash_kvssd/hash_hot_cmt/dftl_wb.c:697-763 | A full write buffer placed and mapped: afterwards each of its keys is held with its length, and all others exactly as before. It fails only for want of space, at a batch's own collection or behind a superblock's end, or over a key with no slot left; with data and translation pages enough only over such a key. |
| `PageCodec.RoundTrip` | lsmtree_kvssd/array/array.c:572-589 | Reading a page back gives the entries written; its offsets rise strictly from 1024 to at most 4096, the last at table index at most 511. |
| `PageCodec.EncodeTable` | lsmtree_kvssd/array/array_level.c:30-61 | Any key list within the limits is written to a page that decodes to it; the run's end key is set for two keys or more only. |
| `PageCodec.WriteEntry` | lsmtree_kvssd/array/pipe.c:92-97 | One more entry at the end leaves the earlier ones byte for byte in place. |
| `PageCodec.WriteEnds` | lsmtree_kvssd/array/pipe.c:75-87 | Filling in the first and last table numbers closes the page. |
| `PageCodec.ReadsEntry` | lsmtree_kvssd/array/pipe.c:45-68 | Key, length in 8 bits and data page of each entry are read back. |
| `PageCodec.ClosedIsOk` | lsmtree_kvssd/array/pipe_merger.c:10-32 | A closed page is one the readers accept, and holds just its entries. |
| `PipeMerger.Merge` | lsmtree_kvssd/array/pipe_merger.c:51-182 | The output pages are the merge of both streams cut into pages, the invalidated data pages are those of the lower entries replaced, and it succeeds exactly when the pages fit the page list. |
| `PipeMerger.MergeMeaning` | lsmtree_kvssd/array/pipe_merger.c:107-162 | Merging two strictly increasing lists gives one, holding exactly the upper entries and the lower ones whose keys the upper list lacks. |
| `PipeMerger.DroppedExactly` | lsmtree_kvssd/array/pipe_merger.c:139-145 | Invalidated are the lower entries of the shared keys, each once, and nothing else. |
| `PipeMerger.CutKeeps` | lsmtree_kvssd/array/pipe.c:71-99 | Cutting into pages loses and reorders nothing, and every page is within its limits and not empty. |
| `PipeMerger.CutBound` | lsmtree_kvssd/array/pipe.c:71-99 | Every page but the last is filled with at least 2545 bytes of entries. |
| `PipeMerger.CutGreedy` | lsmtree_kvssd/array/pipe.c:71-99 | A page is closed only when its table is full, at 509 entries, or the next entry would go beyond its 4096 bytes. |
| `PipeMerger.PaddingSuffices` | lsmtree_kvssd/array/pipe_merger.c:95-98 | Up to 2400 input pages the 500 spare output pages are always enough. |
| `PipeMerger.MergedPagesHold` | lsmtree_kvssd/array/pipe_merger.c:51-182 | The output pages read one after the other are the merge of the two streams. |
| `PipeMerger.Reader.GetNextKey` | lsmtree_kvssd/array/pipe.c:45-68 | The entries of a stream come one by one, in order, across pages, then none. |
| `PipeMerger.Writer.InsertNewKey` | lsmtree_kvssd/array/pipe.c:71-99 | An entry goes to the open page or, if that is full, to a new one, just as the cut says; it fails exactly when the page list is used up. |
| `PipeMerger.Writer.Flush` | lsmtree_kvssd/array/pipe.c:75-87 | The open page is closed and joins the others. |
| `LevelLookup.FindRun` | lsmtree_kvssd/array/array.c:193-225 | The last run that starts at or before the key, or run 0, by a binary search with C's truncating division. |
| `LevelLookup.FindKeyset` | lsmtree_kvssd/array/array.c:165-191 | The entry of a page with that key, exactly when the page has one. |
| `LevelLookup.LevelFind` | lsmtree_kvssd/array/array.c:165-225 | Searching the run found, a level lookup succeeds exactly when some run holds the key, and returns that entry's data page. |
| `LevelLookup.FindIdxLowerBound` | lsmtree_kvssd/array/array.c:609-646 | The first entry at or behind the key. |
| `LevelLookup.BoundSearch` | lsmtree_kvssd/array/array.c:489-520 | The first run that ends at or behind the key. |
| `LevelLookup.KeyIter.Next` | lsmtree_kvssd/array/array.c:572-589 | A page's entries from a position on, in order, then none. |
| `LevelLookup.OnlyThatRun` | lsmtree_kvssd/array/array.c:193-225 | In sorted disjoint runs no other run can hold the key. |
| `Compaction.MergeKeepsLookup` | lsmtree_kvssd/lsmtree/compaction.c:115-234 | Emptying a level into the next one, merged with the upper winning, leaves what every key means in the whole tree as it was. |
| `Compaction.Lsm.Compact` | lsmtree_kvssd/lsmtree/compaction.c:11-102 | A cut memtable compacted into level 0 with the cascade that follows. Level 0 holds the merge, cut into pages; if no run is skipped on the way every key means what the memtable, and behind it the tree, said, and without short keys of zero bytes none is. It aborts exactly when level 0 has no room, which leaves the tree as it was, or where the cascade does. |
| `Compaction.Lsm.Cascade` | lsmtree_kvssd/lsmtree/compaction_assistant.c:393-415 | Full levels, and only those, are emptied downwards one by one; it ends at a level that is not full or the last, and aborts exactly at a full level for which the next has no room. If no step skips a run it changes what no key means. |
| `Compaction.Lsm.LevelMemtable` | lsmtree_kvssd/lsmtree/compaction.c:11-102 | Level 0 becomes the merge of the memtable over the runs read, other levels stay, and it succeeds exactly when there is room; every key means what memtable and tree said unless runs are skipped. |
| `Compaction.Lsm.LevelInto` | lsmtree_kvssd/lsmtree/compaction.c:295-317 | The source level is empty afterwards, the target holds the merge cut into pages (or the source, if it was empty), other levels stay, and it succeeds exactly when there is room; if neither level skips a run no key changes its meaning. |
| `Compaction.PartialLeveling` | lsmtree_kvssd/lsmtree/compaction.c:115-234 | The new level's runs are sorted, disjoint, and hold the merge; invalidated are the replaced entries read. |
| `Compaction.InsertPages` | lsmtree_kvssd/array/pipe_merger.c:214-236 | The output pages become runs, one each, that are sorted and disjoint and hold all entries. |
| `Compaction.MakeRun` | lsmtree_kvssd/array/pipe_merger.c:184-212 | A run's bounds are its page's first and last key. |
| `Compaction.RangeFindCompaction` | lsmtree_kvssd/array/array.c:285-304 | Read are the runs from the first that does not end before `key_min` on, or all if every run does. |
| `Compaction.SkipsNothing` | lsmtree_kvssd/array/array.c:285-304 | No run is skipped if and only if the first does not end before `key_min`, or every run does. |
| `Compaction.BeforeMin` | lsmtree_kvssd/array/array.c:489-520 | Only strings of fewer than 255 zero bytes come before `key_min`. |
| `Compaction.LevelingExact` | lsmtree_kvssd/lsmtree/compaction.c:115-234 | Leveling keeps what two levels say together if and only if the level below still has every entry skipped above and every entry skipped below has its key among those read above. |
| `Compaction.SkippedIsLost` | lsmtree_kvssd/lsmtree/compaction.c:115-234 | An entry of a skipped run that the upper level does not replace is gone. |
| `Compaction.ZeroKeysAreLost` | lsmtree_kvssd/lsmtree/compaction.c:115-234 | A run of three compactions on an empty tree after which a key stored by the first is gone: 74 keys each, pieces as the cut hands them over, the first of zero bytes only. |
| `Compaction.LadderFillsPage` | lsmtree_kvssd/array/pipe.c:71-99 | Each of the three is a piece with no room for a key more and fills a page to its last but one byte, so that the merge puts the next key into a run of its own. |
| `Compaction.ContentsSorted` | lsmtree_kvssd/array/array.c:193-225 | The entries of sorted disjoint runs are one strictly increasing list. |
| `SkipLists.SkipList.Insert` | hash_kvssd/tools/skiplist.c:114-187 | For any height of the new node a map update; a key not there before gets a new node of that height; every level stays linked and sorted, and the list's level the tallest node's height. |
| `SkipLists.SkipList.FindNode` | hash_kvssd/tools/skiplist.c:59-81 | The node of a key, exactly when the list has one. |
| `SkipLists.SkipList.Delete` | hash_kvssd/tools/skiplist.c:197-229 | A map removal with its return codes; `all_length` is left alone. |
| `SkipLists.NodeIter.Next` | hash_kvssd/tools/skiplist.c:231-245 | The nodes in key order, one at a time, then null. |
| `SkipLists.LinkIn` | hash_kvssd/tools/skiplist.c:150-187 | Linking a node in level by level leaves every level a strictly sorted chain of the nodes tall enough. |
| `SkipLists.Bypass` | hash_kvssd/tools/skiplist.c:197-229 | Taking one out does the same, and drops the level with each one emptied. |
| `SkipLists.SkipList.Path` | lsmtree_kvssd/lsm_tools/skiplist.c:194-215 | The walk from the top stops at each level at the last node before the key. |
| `SkipLists.SkipList.Divide` | lsmtree_kvssd/lsm_tools/skiplist.c:274-341 | The nodes up to the target and the rest are two lists, both linked at every level. |
| `SkipLists.DivideLevel` | lsmtree_kvssd/lsm_tools/skiplist.c:285-330 | One level divided behind its last node on the left. |
| `SkipLists.SkipList.CuttingHeader` | lsmtree_kvssd/lsm_tools/skiplist.c:519-545 | Over its limits the list gives up its first 2 to 510 nodes, of less than 3072 bytes, and as many as these limits allow: 510, or so long that the next key does not fit; sizes and lengths of both are exact and their nodes follow one another. |
| `SkipLists.SkipList.CutPoint` | lsmtree_kvssd/lsm_tools/skiplist.c:519-545 | The node cut behind is never the header. |
| `SkipLists.CutNext` | lsmtree_kvssd/lsmtree/compaction_assistant.c:58-94 | One cut leaves the pieces cut before as they are and follows them in key order. |
| `SkipLists.CompactionCheck` | lsmtree_kvssd/lsmtree/compaction_assistant.c:48-96 | The cutting loop ends with a memtable within its limits, having handed over pieces that with it make up the memtable, in key order, none sharing a node, each of 510 nodes or too long for any key more. |
| `Memtable.PieceIsMemtable` | lsmtree_kvssd/lsmtree/compaction_assistant.c:58-94 | Every piece handed over, once its nodes have data pages, is a memtable that fits one page and fills it. |
| `HotTable.Table.Promote` | hash_kvssd/hash_hot_cmt/dftl_cache.c:136-240 | Refused exactly when the fifty slots of the chain hold other, warmer entries; else the first slot of the chain with an entry of the lpa, or the first vacant one, or the last coldest, and no other gets the lpa, page, fingerprint and state given, keeping the bytes of its key only if the entry was its own; counters and key bytes stay as exact as they were, and entries stay single if and only if none of its own was out of reach. |
| `HotTable.Table.PromoteAndHit` | hash_kvssd/hash_hot_cmt/dftl_cache.c:136-240 | A lookup behind a promotion that is not refused is a hit and gives the page and fingerprint promoted. |
| `HotTable.ChainStep` | hash_kvssd/hash_hot_cmt/dftl_cache.c:1149-1189 | The chain of an lpa begins at the lpa modulo the slots in use and goes on by 1, 4, 9, ... slots, round and round. |
| `HotTable.PromotedDistinct` | hash_kvssd/hash_hot_cmt/dftl_cache.c:136-240 | From tables with all entries within fifty probes promotions keep entries single; in general exactly when no entry of that lpa lies elsewhere. |
| `HotTable.Crowded` | hash_kvssd/hash_hot_cmt/dftl_cache.c:1149-1189 | Of more than fifty lpas with one home, some lookup fails, whatever the table holds. |
| `HotTable.CrowdedOffChain` | hash_kvssd/hash_hot_cmt/dftl_cache.c:1149-1189 | So a table with entries for all of them has one beyond its fifty probes. |
| `HotTable.RehashDoubles` | hash_kvssd/hash_hot_cmt/adaptive_mem.c:558-586 | A run for any number of pages and any chunk over which fifty-one steps never meet: fifty-one promotions into an empty table, a growth by the chunk after which a lookup misses an entry that is there, its promotion, which makes a second entry, and another growth after which the count of entries is too high. |
| `HotTable.ConfiguredSpread` | hash_kvssd/hash_hot_cmt/dftl_cache.c:322-346 | The 3277 hot pages and the chunk of 642 the store is configured for are such numbers, and its mapping table has all the slots the run promotes. |
| `HotTable.Table.IsHit` | hash_kvssd/hash_hot_cmt/dftl_cache.c:1149-1189 | A hit exactly when the entry is among the first fifty of its chain, at the first slot it has there; that is warmer by one state, up to the fifth, and nothing else changes. |
| `HotTable.Table.CacheKey` | hash_kvssd/hash_hot_cmt/dftl_wb.c:600-613 | A key is cached exactly when it is new, not a ghost, short enough and within the free bytes; bytes stay conserved. |
| `HotTable.Table.ClearPage` | hash_kvssd/hash_hot_cmt/adaptive_mem.c:484-514 | A page's entries, and no others, are dropped; their key bytes are free again. |
| `HotTable.Table.ExpandKeyCache` | hash_kvssd/hash_hot_cmt/adaptive_mem.c:516-556 | Only a used-up budget grows, up to its limit, for as many cold pages; the new bytes are free. |
| `HotTable.Table.Step` | hash_kvssd/hash_hot_cmt/dftl_cache.c:887-957 | A step scans as many slots, or inserts as many entries, as its budget says, or all that are left; bytes cached, saved, free and lost add up to the budget at every step, and bytes are lost only with an entry replaced. |
| `HotTable.Table.DrainAll` | hash_kvssd/hash_hot_cmt/dftl_cache.c:979-996 | A rehash ends with, of the warm entries of the table it began with, the last of each lpa, once, with its page, fingerprint and state, and drops nothing; the count it sets is right if and only if no two warm entries had one lpa. |
| `HotTable.Table.Begin` | hash_kvssd/hash_hot_cmt/dftl_cache.c:867-878 | Its start, from any table. |
| `HotTable.Table.CollectOne` | hash_kvssd/hash_hot_cmt/dftl_cache.c:895-923 | One slot scanned: a warm entry is saved, any other gives its key bytes back. |
| `HotTable.Table.InsertOne` | hash_kvssd/hash_hot_cmt/dftl_cache.c:932-953 | One saved entry inserted, for which there always is room: at the first slot tried that is vacant or its own, where an entry replaced stays counted and the bytes of its key are lost. |
| `HotTable.Table.PlaceOrDrop` | hash_kvssd/hash_hot_cmt/dftl_cache.c:769-825 | An entry goes to the first slot tried that is vacant or its own, and is dropped exactly when there is none. |
| `HotTable.Table.FindSlot` | hash_kvssd/hash_hot_cmt/dftl_cache.c:769-818 | The search along the chain and then over the whole table gives the first such slot, and fails exactly when there is none. |
| `HotTable.FirstFreeMeans` | hash_kvssd/hash_hot_cmt/dftl_cache.c:769-818 | That slot is the first of the 3200 of the chain that is vacant or its own, or, if there is none, the first such slot of the table. |
| `HotTable.FirstFitPut` | hash_kvssd/hash_hot_cmt/dftl_cache.c:769-825 | Entries put where that search ends stay where it finds them: a second entry of an lpa replaces the first. |
| `HotTable.Table.Rehash` | hash_kvssd/hash_hot_cmt/dftl_cache.c:867-996 | A rehash from any table: entries are single afterwards, the last warm one of each lpa; with single entries before exactly the warm ones stay, and counts and key bytes are exact. |
| `HotTable.Table.Expand` | hash_kvssd/hash_hot_cmt/adaptive_mem.c:558-586 | Pages move from the cold side exactly when both limits allow, none lost, and the table is rehashed. |
| `HotTable.Table.Shrink` | hash_kvssd/hash_hot_cmt/adaptive_mem.c:588-615 | The same the other way, with the entries of the pages kept. |
| `HotTable.StatesAreAll` | hash_kvssd/hash_hot_cmt/dftl_cache.c:31-99 | The counts of the six states add up to the number of entries. |
| `HotTable.CountsPut` | hash_kvssd/hash_hot_cmt/dftl_cache.c:31-99 | Putting an entry into a slot with its counter updates keeps all counters exact. |
| `Nand.AddressesDiffer` | hash_kvssd/lower/ssd.c:31-47 | Different pages of the device have different physical addresses. |
| `Nand.AddressDigits` | hash_kvssd/lower/ssd.c:31-47 | A page number is its channel, LUN, block and page of the block as digits to the bases 4, 8, 1178 and 2048. |
| `Nand.NextRow` | hash_kvssd/lower/ssd.c:31-47 | Page numbers 32 more are a block further on the same LUN, and behind the last block a page. |
| `Nand.Striping` | hash_kvssd/lower/ssd.c:31-47 | Two pages share a LUN if and only if they are a multiple of 32 apart. |
| `Nand.IdleLatency` | hash_kvssd/lower/ssd.c:287-327 | On idle LUNs a run of n pages takes exactly n/32, rounded up, command times. |
| `Nand.OneMoreQueued` | hash_kvssd/lower/ssd.c:216-285 | A command queues behind the earlier ones of its LUN only. |
| `Nand.NextInOrder` | hash_kvssd/lower/ssd.c:287-327 | A page is next in its line exactly when the run with it is in order. |
| `Nand.Ssd.AdvanceStatus` | hash_kvssd/lower/ssd.c:216-285 | The LUN starts when it is free and is busy for the command's time. |
| `Nand.Ssd.Write` | hash_kvssd/lower/ssd.c:287-327 | Succeeds exactly when the pages are next in order in their lines; every line's written pages stay the prefix below its pointer; a failing run has written just the pages before and tells an overwrite from a gap; the latency is the exact one. |
| `Nand.Ssd.Read` | hash_kvssd/lower/ssd.c:329-355 | Succeeds exactly when all pages are written, with the same exact latency. |
| `Nand.Ssd.Trim` | hash_kvssd/lower/ssd.c:357-380 | The line is empty, no other changed, each LUN got exactly one erase; the latency, kept in 32 bits, is right if and only if it fits. |

## Left out

- The `DATA_SEGREGATION` streams, `PREFILL_CACHE`, the block SSD and the NUMA variants: one build is modelled, the single-stream one.
- `HOT_CMT` and `ADAPTIVE_MEM` inside the probe walk: the write and read paths go through the cold mapping table only, and the hot table is modelled on its own.
- Values: an item is its length in grains; value bytes, the flush list's segments and the write buffer's values are not modelled.
- ProbeTable.KvStore.MappingUpdate: entries come ready in any order, which covers the retry queue's times; the queue itself, the clock and the flash latencies are left out, and an entry's load that the source enqueues twice on failure is taken once.
- OwnBatch.FillStore: the device has three data superblocks and a mapping table of one page; its entries are mapped in the buffer's order, each in its first slot.
- ProbeTable.OrphanRun: with a cache of one page; see above for larger ones.
- ProbeTable.KvStore.ReadOn: a read alternates with other requests only where it waits; other interleavings of requests are not modelled.
- DataGc.Store.PlaceBatch: stops with its own results where the source would go on past a superblock's end or collect its own unmapped grains; what the source does from there on is not modelled.
- TransPages.Cache.ListUp: the victim is any entry in memory, which covers the LRU order, and the cache is full when as many are in memory as it takes (`ProbeTable.KvStore.BringIn`), where the source keeps a counter. The source keeps the slots of every translation page in one array in memory and reads nothing back from flash, so what is on a copy, and how old it is, is not modelled.
- TransPages.Cache.BulkMappingUpdate: `qsort` is taken as an insertion sort by slot; the sizes of reads and writes in flight and the waiting for them are left out.
- Superblocks and pages are numbered from their partition's first; C arrays the source indexes are fields of type `seq`.
- Compaction.Lsm.Cascade: the threshold at which a level is full is a parameter, because the source computes it with floating point; resizing of levels, the single-level tree and tiering are left out, as are a level's own start and end keys and the flash pages of cached runs.
- PipeMerger.Merge: closed output pages are values; that the keys handed on point into the input pages, and the freeing of pages, are left out, as is the page-parallel merger.
- Keys are those the store lets in: 1 to 254 bytes, the first not negative as a `char`; for others the merger aborts.
- SkipLists.SkipList.Insert: a node's value is a number; `back` pointers, `data_size`, the request-taking variants and the range searches are left out.
- HotTable.Table.Step: ghost-key marks and counters, hit statistics and the table's lock are left out; a tick is one step with any work.
- Nand.Ssd.Write: start times are parameters, at least the clock's time; `ppa2pgidx`, the channel's transfer time (compiled out in the source) and totals over all LUNs are left out.
- RteRing.RunsAreSafe: memory barriers are left out: accesses are taken in program order, one at a time.
- RteRing.EmptyIsHonest: no run is given of 2^32 positions passing one waiting thread, which a dishonest refusal takes.
- The request plumbing of the LSM read path (`lsm_get`, `lsm_find_run`), its cache, the hash functions, bloom filters, statistics and logging: nothing hard depends on them.
