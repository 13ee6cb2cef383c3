# Proofs about memcached with persistent memory

This project models the hard core of a memcached that keeps its items in persistent memory and proves what it
promises, for every input, every interleaving and every crash point that the statements name.

| component | files |
|---|---|
| CRC-32C: bit-serial definition, slicing-by-8 tables, GF(2) operators, three-way hardware form | `Words`, `Crc32c`, `CrcPolynomial`, `CrcVector`, `Crc32cSoftware`, `Crc32cHardware` |
| external storage engine: a step per critical section, its invariant, whole runs, and the page lists on their pointers | `Extstore`, `ExtstoreInvariant`, `ExtstoreSteps`, `ExtstoreSafety`, `ExtstoreService`, `ExtstoreLists` |
| persistent memory, the pool header's flush time, item commit, recovery | `Pmem`, `Settling`, `PslabHeader`, `ItemCommit`, `CommitRuns`, `Recovery` |
| hash table that expands while in use: interleavings, and the pointer code | `Assoc`, `AssocRuns`, `AssocTable` |
| LRU lists with the crawler in them | `LruList`, `Crawler` |
| items: references, index, segmented LRU, tail pulling | `Items`, `ItemOps`, `ItemRuns`, `ItemFlow`, `ItemMoves`, `ItemStore` |
| bip-buffer | `BipBuffer` |
| chunk copying, response queueing and sending, decimal printing | `Chunks`, `Iov`, `Itoa` |
| shared definitions | `Prelude`, `Arith`, `Chains` |

How to read the models:

- **Persistent memory.** A memory is its durable bytes and the stores since the last drain. A flush marks the pending
  stores of a range, a drain makes the marked ones durable, and a crash leaves each byte as it was drained or as any
  undrained store left it, byte by byte and independently.
- **Machines.** A concurrent component is a state, a predicate that says when each thread may take each step, and a
  function for each step. A theorem about runs quantifies over every sequence of enabled steps. Classes beside the
  machines hold the code in its own form, and their methods are proved equal to the machine's functions.
- **Pointers.** Doubly linked lists, hash chains and the iovec list are modelled with their pointers or indices; the
  sequence a pointer structure stands for is what a contract speaks about.
- **Environment.** Clocks, allocation outcomes, lock outcomes, what sendmsg takes and hash values are parameters.

Two places where the code and its own words differ: `pslab_t` is 12 bytes long, since the struct is packed, although
the comment beside it speaks of 8-byte alignment (`memcached-pmem-master/pslab.c:39-45`); and `bipbuf_poll` tests the
request against the buffer's size, not against what region A holds (`memcached-pmem-master/bipbuffer.c:157`), so a
larger poll can break the queue: `BipBuffer.PollSafeExactly` says exactly when.

One promise the code does not keep everywhere: alloc flushes an item's header once and link flushes only what follows
it, so a header byte changed in between, as the external storage thread does with nbytes
(`memcached-pmem-master/storage.c:107`), can be lost in a crash that finds the item linked.
`ItemCommit.LinkKeepsExactly` says for which stores, flushes and drains between alloc and link this happens,
`CommitRuns.HeaderStoreLost` gives the runs, and `CommitRuns.CommitSurvivesCrash` and `CommitRuns.ItemSurvivesCrash` say
what a crash finds after every run that leaves a byte, or the whole payload, alone.

## Model

| member | source | states |
|---|---|---|
| Crc32c.FeedLinear | memcached-pmem-master/crc32c.c:112-128 | the bit-serial register is linear over GF(2) in start value and message together |
| Crc32c.FeedMerge | memcached-pmem-master/crc32c.c:92-101 | a register and a longer message meet only through the xor of their first 32 bits |
| Crc32c.FeedByte | memcached-pmem-master/crc32c.c:88-91 | one table step is eight bit-serial steps |
| Crc32c.ThreeStreams | memcached-pmem-master/crc32c.c:250-270 | three streams computed apart and shifted over one another's lengths give the CRC of their concatenation |
| Crc32c.CrcAppend | memcached-pmem-master/memcached.c:3640-3650 | crc(crc(c, a), b) == crc(c, a ++ b) |
| Crc32c.CrcIovecs | memcached-pmem-master/memcached.c:3640-3650 | the piecewise check over iovecs, the first without its 32 bytes, is the one-shot CRC of the bytes that were stored |
| CrcPolynomial.FeedDivides | memcached-pmem-master/crc32c.c:42-76 | the register after a message is the start value times a power of x plus the message times x^32, less a multiple of the generator of section 12.1 of RFC 3720 |
| CrcPolynomial.RemainderUnique | memcached-pmem-master/crc32c.c:42-43 | a polynomial has one remainder modulo the generator |
| CrcPolynomial.CrcIsRemainder | memcached-pmem-master/crc32c.c:81-110 | the CRC, inverted, is the remainder of the inverted start value and the message |
| CrcVector.TurnFeeds | memcached-pmem-master/crc32c.c:59-68 | the shift and conditional xor on a 32-bit word is one bit-serial step |
| CrcVector.ZeroBytesCrc | memcached-pmem-master/crc32c.c:42-110 | the CRC of 32 zero bytes is 0x8a9136aa, as appendix B.4 of RFC 3720 publishes it |
| Crc32cSoftware.InitTable | memcached-pmem-master/crc32c.c:53-76 | entry k, n is the register after byte n and k zero bytes, for all eight rows |
| Crc32cSoftware.SlicesFeed | memcached-pmem-master/crc32c.c:92-101 | the eight lookups xored are the bit-serial register after eight bytes |
| Crc32cSoftware.CrcSoftware | memcached-pmem-master/crc32c.c:81-110 | for every start value, alignment and byte string the result is the bit-serial CRC-32C |
| Crc32cHardware.MatrixTimes | memcached-pmem-master/crc32c.c:116-128 | multiplying by the operator for k zero bits gives the register after k zero bits |
| Crc32cHardware.MatrixSquare | memcached-pmem-master/crc32c.c:132-138 | the square of the operator for k zero bits is the operator for 2k |
| Crc32cHardware.TopPowerBounds | memcached-pmem-master/crc32c.c:140-144 | the length an operator is built for is the largest power of two not above the one asked for, and 1 for 0 |
| Crc32cHardware.ZerosOp | memcached-pmem-master/crc32c.c:145-180 | the result is the operator for that power of two of zero bytes, for every length |
| Crc32cHardware.ZerosTable | memcached-pmem-master/crc32c.c:184-196 | the four tables hold that operator's effect on each byte in each lane |
| Crc32cHardware.ShiftApplies | memcached-pmem-master/crc32c.c:199-203 | the four lookups apply the operator to the whole register |
| Crc32cHardware.ThreeWay | memcached-pmem-master/crc32c.c:254-270 | a round of three parallel blocks continues the single-stream CRC over all three |
| Crc32cHardware.InitTables | memcached-pmem-master/crc32c.c:221-225 | the LONG and SHORT tables shift by exactly LONG and SHORT zero bytes |
| Crc32cHardware.CrcHardware | memcached-pmem-master/crc32c.c:228-314 | for every start value, alignment and byte string the result is the bit-serial CRC-32C |
| ExtstoreSafety.NoAssertFails | memcached-pmem-master/extstore.c:319-485 | in a state that satisfies the invariant no enabled step fails an assert or pops an empty io_stack |
| ExtstoreSafety.StepKeeps | memcached-pmem-master/extstore.c:319-769 | every step of every thread keeps the invariant |
| ExtstoreSafety.ReachableSafe | memcached-pmem-master/extstore.c:319-845 | in every run from a fresh engine no assert ever fails |
| ExtstoreSafety.ReachablePages | memcached-pmem-master/extstore.c:344-424 | a reachable page without a write buffer has allocated == written; with one, the buffer starts at written and allocated is its end, within the page |
| ExtstoreSafety.ReadsReturnWhatWasWritten | memcached-pmem-master/extstore.c:610-723 | every read of a stored handle, in every interleaving, misses or returns exactly the bytes stored there |
| ExtstoreService.StartReadAnswers | memcached-pmem-master/extstore.c:669-689 | the read of a stored object misses if and only if its page is free, closed or at another version; otherwise it is answered with the object's bytes at once, or takes a page reference |
| ExtstoreService.PreadAnswers | memcached-pmem-master/extstore.c:690-696 | the pread of a read that holds a reference gives the object's bytes |
| ExtstoreService.ReadIsAnswered | memcached-pmem-master/extstore.c:664-720 | in every run: exactly one answer to a read, a miss if and only if the page is gone, and the object's bytes otherwise, whatever the other threads do before its pread |
| ExtstoreService.PicksPage | memcached-pmem-master/extstore.c:435-449 | a write takes the bucket's newest page, or the first free one with a new version for a bucket that has none |
| ExtstoreService.WriteStores | memcached-pmem-master/extstore.c:451-508 | on a page that is used up the writer asks for another; otherwise the object is stored if and only if it fits the page's buffer or a fresh one, behind every other object of the page, and a buffer too small for it is sent to be flushed |
| ExtstoreService.DeleteCounts | memcached-pmem-master/extstore.c:544-578 | objects and bytes count down and not below zero, and only on the version meant |
| ExtstoreService.EmptiedIsFreed | memcached-pmem-master/extstore.c:545-826 | a page all of whose objects were deleted is on the freelist once the scan comes to it |
| ExtstoreService.CloseMisses | memcached-pmem-master/extstore.c:592-602 | closing takes effect on the version meant alone, and every later read of the page's objects misses |
| ExtstoreService.ScanFrees | memcached-pmem-master/extstore.c:804-826 | a page is freed when the scan comes to it if and only if it is full, idle, and empty or closed; freeing one calls the eviction off |
| ExtstoreService.ScanStarts | memcached-pmem-master/extstore.c:796-800 | a scan may evict exactly if no page is free when it starts |
| ExtstoreService.EvictCloses | memcached-pmem-master/extstore.c:828-845 | the noted page is closed if the scan freed none, and freed at once if no read holds it |
| ExtstoreService.EvictsOldest | memcached-pmem-master/extstore.c:804-843 | in every run: the page a scan is about to evict is at least as old as every page that was eligible when the scan came to it |
| ExtstoreSteps.HandleReadable | memcached-pmem-master/extstore.c:610-632 | a handle whose page still has its version is served, from the buffer with the right bytes or from below `written` |
| ExtstoreSafety.StepVersions | memcached-pmem-master/extstore.c:319-341 | a page is freed only when inactive and unreferenced, and each allocation's version exceeds all earlier ones |
| ExtstoreSafety.StaleForEver | memcached-pmem-master/extstore.c:579-589 | a stale (page, version) handle never validates again in any run |
| ExtstoreSafety.OnExactlyOneList | memcached-pmem-master/extstore.c:248-264 | each page but page 0 is once on the freelist or once on its own bucket's list, never both, and page_free is the freelist's length |
| ExtstoreSteps.IoLeft | memcached-pmem-master/extstore.c:403-424 | a buffer about to be submitted leaves an I/O object to submit it with |
| ExtstoreSteps.TryWriteKeeps | memcached-pmem-master/extstore.c:451-508 | the write attempt and the object it stores keep the invariant |
| ExtstoreSteps.WbufCallbackKeeps | memcached-pmem-master/extstore.c:372-398 | the flush callback keeps it: what was in the buffer is now below `written`, and on disk |
| ExtstoreSteps.FreePageKeeps | memcached-pmem-master/extstore.c:729-769 | freeing a page that is idle keeps it |
| ExtstoreSteps.ScanPageKeeps | memcached-pmem-master/extstore.c:804-826 | each page of the maintenance scan keeps it |
| ExtstoreSteps.EvictKeeps | memcached-pmem-master/extstore.c:828-845 | evicting the page chosen during the scan keeps it, whatever ran in between |
| ExtstoreLists.TakenThreads | memcached-pmem-master/extstore.c:325-328 | moving the first free page to a bucket's head through the one `next` pointer a page has leaves the freelist and every bucket threaded |
| ExtstoreLists.FreedThreads | memcached-pmem-master/extstore.c:739-767 | unhooking a page from anywhere in its bucket and pushing it on the freelist leaves them threaded |
| ExtstoreLists.ListsStay | memcached-pmem-master/extstore.c:344-727 | no other section of any thread touches a page list |
| ExtstoreLists.StepThreads | memcached-pmem-master/extstore.c:319-845 | the pointer updates of every step of every thread leave every list threaded |
| ExtstoreLists.ReachableThreads | memcached-pmem-master/extstore.c:319-845 | so in every run following `next` from page_freelist and from each bucket visits exactly the pages of that list |
| ExtstoreLists.LinkPages | memcached-pmem-master/extstore.c:257-261 | the start-up loop threads every page but the first, in order |
| ExtstoreLists.Engine.constructor | memcached-pmem-master/extstore.c:248-275 | a fresh engine satisfies the invariant, with its lists threaded |
| ExtstoreLists.Engine.AllocatePage | memcached-pmem-master/extstore.c:319-341 | the pointer code takes the first free page, puts it first in the bucket and leaves every list threaded |
| ExtstoreLists.Engine.PickPage | memcached-pmem-master/extstore.c:442-449 | picking or allocating the bucket's page keeps the whole invariant and the threads |
| ExtstoreLists.Engine.ReplacePage | memcached-pmem-master/extstore.c:458-460 | so does allocating after a full page |
| ExtstoreLists.Engine.FindBefore | memcached-pmem-master/extstore.c:740-753 | the walk from the bucket's head finds the page's predecessor |
| ExtstoreLists.Engine.FreePage | memcached-pmem-master/extstore.c:729-769 | the pointer code takes the page out of its bucket, puts it first on the freelist and leaves every list threaded |
| ExtstoreLists.Engine.ScanPage | memcached-pmem-master/extstore.c:804-826 | a turn of the maintenance loop keeps the whole invariant and the threads |
| ExtstoreLists.Engine.Evict | memcached-pmem-master/extstore.c:828-845 | so does its end, with the eviction |
| PslabHeader.DoChecksum | memcached-pmem-master/pslab.c:116-124 | the sum of the bytes modulo 256 |
| PslabHeader.ComplementCancels | memcached-pmem-master/pslab.c:146-148 | the stored checksum byte makes the slot's sum zero |
| PslabHeader.OneByteCaught | memcached-pmem-master/pslab.c:129-144 | a change of any single byte, but for `valid` and the other slot, makes the check of a good slot fail |
| PslabHeader.InPhase | memcached-pmem-master/pslab.c:150-160 | after any number of its operations an update is in one of three phases: filling the idle slot, both slots good with `valid` in flight, finished |
| PslabHeader.CrashRecovers | memcached-pmem-master/pslab.c:289-290 | whatever a crash leaves is accepted, with the last finished time or the interrupted one |
| PslabHeader.FlushTimeSurvives | memcached-pmem-master/pslab.c:116-160 | from any accepted header, after every run of updates and crashes, every crash image checksums to zero in the slot `valid` names and holds the time of the last finished or the interrupted call |
| PslabHeader.PslabPool.ChecksumInit | memcached-pmem-master/pslab.c:129-137 | the three partial sums are the sum of all bytes outside the slots, modulo 256 |
| PslabHeader.PslabPool.ChecksumCheck | memcached-pmem-master/pslab.c:139-144 | zero exactly when the slot is good |
| PslabHeader.PslabPool.UpdateFlushtime | memcached-pmem-master/pslab.c:150-160 | the code does exactly the modelled operations in order, and ends with the new time durable |
| ItemCommit.ActKeeps | memcached-pmem-master/items.c:275-378 | every act on a slot keeps what a crash may find in it: stores to any byte between alloc and link, and stores by others while the item is in the table or being unlinked, included |
| ItemCommit.AllocSettles | memcached-pmem-master/items.c:372-375 | alloc's flush settles the whole header |
| ItemCommit.PayloadExactly | memcached-pmem-master/memcached.h:137-154 | the payload is exptime, the lengths, key with its NUL, suffix and value, where the lengths in the header place them, and nothing else |
| Settling.SettlesExactly | memcached-pmem-master/items.c:343-375 | after a store, flush or drain a byte is settled if and only if it was just flushed, or was settled and is not changed |
| Settling.StoresSettleExactly | memcached-pmem-master/items.c:343-375 | from a settled byte, after any stores, drains and flushes elsewhere: it is settled if and only if every store to it stored the value it had |
| Settling.UnchangedExactly | memcached-pmem-master/items.c:343-375 | the same with flushes of the byte among the operations: only the stores since its last flush count |
| ItemCommit.LinkSettlesExactly | memcached-pmem-master/items.c:535-538 | link settles key, suffix and value always, and a header byte exactly if it was settled before the call |
| ItemCommit.CommitKeepsExactly | memcached-pmem-master/items.c:535-543 | every crash after link finds a payload byte as link saw it, if and only if it is a byte of key, suffix or value or was settled when link was called |
| ItemCommit.LinkKeepsExactly | memcached-pmem-master/items.c:372-543 | for every sequence of stores, flushes and drains between alloc and link: every crash after link finds a payload byte as link saw it, if and only if it is a byte of key, suffix or value, or every store to it since its last flush stored the value it had then |
| CommitRuns.HeaderStoreLost | memcached-pmem-master/storage.c:64-112 | the external storage thread's store to nbytes between alloc and link, or any other that changes a header byte: a run after which a crash finds LINKED set and the old byte |
| ItemCommit.DrainLinkKeeps | memcached-pmem-master/items.c:531-547 | the drain of link makes every settled byte durable before LINKED is stored |
| ItemCommit.DrainUnlinkedKeeps | memcached-pmem-master/items.c:568-575 | after unlink's persist no crash finds LINKED set, so no slot returns for reuse with it |
| ItemCommit.CrashFindsItem | memcached-pmem-master/items.c:531-547 | a crash that finds LINKED set finds an item that was in the table, with every settled byte as it was at link |
| CommitRuns.CommitSurvivesCrash | memcached-pmem-master/items.c:531-691 | over every run of alloc, stores, link, in-place updates, unlink and crashes: a slot found LINKED was in the table, with its CAS flag, and holds what link saw in every payload byte left alone since the slot was last vacant, which for key, suffix and value means no change from link to unlink, and for a header byte also none between alloc's or the caller's flush and link; no vacant slot is found LINKED |
| CommitRuns.ItemSurvivesCrash | memcached-pmem-master/items.c:531-691 | over every run that leaves a slot's payload alone since it was last vacant: if it is found LINKED, lengths, exptime, key, suffix and value are the item's, byte for byte at the places its header gives |
| CommitRuns.KeysSurviveCrash | memcached-pmem-master/items.c:531-691 | over every run that leaves the keys alone, between alloc and link their lengths and from link to unlink all of them, no two slots found LINKED share a key |
| ItemCommit.PmemItem.DoItemLink | memcached-pmem-master/items.c:531-557 | after the code's flushes, drains and stores every crash finds LINKED, the link time, the new CAS, and every byte of key, suffix and value for the lengths in the header |
| ItemCommit.PmemItem.DoItemUnlink | memcached-pmem-master/items.c:568-575 | the code's store and persist are acts its phase allows, and it ends with LINKED durably clear |
| Recovery.AddressRoundTrip | memcached-pmem-master/pslab.c:49-80 | a slot's offset is never 0 and leads back to its frame and to itself |
| Recovery.LiveExactly | memcached-pmem-master/items.c:128-140 | an item lives if and only if it is linked, not expired, and, once a flush is due, younger than it and not below its CAS |
| Recovery.DroppedForEver | memcached-pmem-master/pslab.c:198-202 | what is dropped at one time would be dropped at every later time |
| Recovery.Pool.ClearFlags | memcached-pmem-master/pslab.c:185-187 | the first pass clears every frame's flags and nothing else |
| Recovery.Pool.MarkLinked | memcached-pmem-master/pslab.c:189-212 | the second pass drops exactly the dead items, forgets chunk heads, and marks exactly the frames that hold a live item |
| Recovery.Pool.WalkChain | memcached-pmem-master/pslab.c:223-238 | following next_poff links the whole chain both ways with the item as its head, marks the frames it reaches, and stops |
| Recovery.Pool.RelinkChunks | memcached-pmem-master/pslab.c:214-239 | the third pass does so for every live chunked item, and no walk disturbs another's chain |
| Recovery.Pool.Sweep | memcached-pmem-master/pslab.c:241-265 | the fourth pass relinks each linked slot and frees each unheld slot of a kept frame once, unless a frame cannot be renewed |
| Recovery.Pool.DoRecover | memcached-pmem-master/pslab.c:173-268 | kept frames are those that hold a live item or a chunk of one; live chains are relinked; exactly the live items are relinked, once each; an initially unlinked slot of a kept frame is freed, once, exactly if no live chain reaches it; a slot is relinked if and only if it was linked, its exptime is 0 or later than now, and, with a flush time set and due, its time is later than that and its CAS not below the oldest |
| Recovery.Pool.GetFreeSlab | memcached-pmem-master/pslab.c:96-112 | the next frame that was not kept, when asked from where the last call stopped |
| Recovery.Pool.FreeSlabs | memcached-pmem-master/slabs.c:214-222 | repeated calls give every frame that was not kept once, in order |
| AssocRuns.LockOfBucket | memcached-pmem-master/assoc.c:226-229 | with fewer lock bits than old bucket bits, a key's lock is named by its old bucket |
| AssocRuns.NotBeingMoved | memcached-pmem-master/assoc.c:230-236 | while a worker holds a key's lock, that key's bucket is not being moved |
| AssocRuns.FindAgrees | memcached-pmem-master/assoc.c:78-102 | what a worker finds in the bucket it chose is what the map holds, and that bucket's table is not freed |
| AssocRuns.InsertKeeps | memcached-pmem-master/assoc.c:156-181 | inserting an absent key adds it to the map, at any stage of an expansion |
| AssocRuns.DeleteKeeps | memcached-pmem-master/assoc.c:183-206 | deleting a present key removes it from the map |
| AssocRuns.MovedKeeps | memcached-pmem-master/assoc.c:231-236 | moving one item leaves the map as it was |
| AssocRuns.AdvanceKeeps | memcached-pmem-master/assoc.c:238-240 | so does advancing the cursor past an emptied bucket |
| AssocRuns.OldTableEmpty | memcached-pmem-master/assoc.c:241-243 | when the cursor reaches the end the old table is empty |
| AssocRuns.ExpandedKeeps | memcached-pmem-master/assoc.c:126-145 | starting an expansion leaves the map as it was |
| AssocRuns.ChoiceStep | memcached-pmem-master/assoc.c:82-88 | a worker that read the flag and the cursor before or after any step of the migration chose the right table, and it stays right until it releases its lock |
| AssocRuns.StepKeeps | memcached-pmem-master/assoc.c:78-260 | every step of workers and migration keeps the invariant |
| AssocRuns.LooksLikeAMap | memcached-pmem-master/assoc.c:78-260 | after every interleaving every worker about to use its bucket sees what a plain map holds for its key, and hash_items is the map's size |
| AssocRuns.ChangedUnderItsLock | memcached-pmem-master/assoc.c:226-240 | a chain changes only by the thread that holds the one lock all its keys share |
| AssocRuns.ExpansionLength | memcached-pmem-master/assoc.c:239-246 | an expansion that has ended took one migration per old bucket, and no old table is left |
| AssocTable.HashTable.constructor | memcached-pmem-master/assoc.c:63-76 | a fresh table holds the empty map |
| AssocTable.HashTable.Find | memcached-pmem-master/assoc.c:78-102 | the pointer walk finds the first item with the key in its home chain |
| AssocTable.HashTable.HashItemBefore | memcached-pmem-master/assoc.c:107-123 | the walk stops at that item and knows the one before it |
| AssocTable.HashTable.Insert | memcached-pmem-master/assoc.c:156-170 | the pointer updates push the item on its home chain and leave all other chains |
| AssocTable.HashTable.Delete | memcached-pmem-master/assoc.c:183-202 | they unhook the item from its bucket or its predecessor and leave all other chains |
| AssocTable.HashTable.Expand | memcached-pmem-master/assoc.c:126-136 | the main table becomes the old one under a fresh one of twice the size |
| AssocTable.HashTable.MoveBucket | memcached-pmem-master/assoc.c:231-236 | the loop moves the whole old chain, item by item, to the chains of the new table |
| AssocTable.HashTable.MigrateBucket | memcached-pmem-master/assoc.c:230-250 | a turn of the maintenance loop moves the whole bucket, advances the cursor, and frees the old table at the end |
| AssocTable.MigratedKeeps | memcached-pmem-master/assoc.c:230-250 | migrating a bucket leaves the map as it was |
| AssocTable.HashTable.RunExpansion | memcached-pmem-master/assoc.c:214-260 | an expansion ends after hashsize(hashpower-1) migrations with the same map |
| BipBuffer.PushAppends | memcached-pmem-master/bipbuffer.c:91-107 | a push appends the bytes that stand at the free space, or changes nothing if they do not fit |
| BipBuffer.PushLeavesRoom | memcached-pmem-master/bipbuffer.c:68-74 | a push of n takes at most n of the unused space |
| BipBuffer.Accounting | memcached-pmem-master/bipbuffer.c:23-40 | used is the queue's length, and an empty buffer has its whole capacity unused |
| BipBuffer.PollRemoves | memcached-pmem-master/bipbuffer.c:151-180 | polling at most what region A holds removes that many bytes from the front |
| BipBuffer.PollSafeExactly | memcached-pmem-master/bipbuffer.c:157-161 | a poll leaves a well-formed buffer exactly if it is refused or asks for at most what region A holds |
| BipBuffer.PollTooMuch | memcached-pmem-master/bipbuffer.c:157-161 | a run of offers, a peek and a poll reaches a buffer that a poll of no more than it holds breaks |
| BipBuffer.StepKeeps | memcached-pmem-master/bipbuffer.c:23-180 | every step of one producer and one consumer keeps the queue and what a peek shows |
| BipBuffer.FirstInFirstOut | memcached-pmem-master/bipbuffer.c:23-180 | in every run the bytes taken, then those queued, are the bytes pushed; and bytes being read outside the lock are what the peek showed |
| BipBuffer.HalfIsFree | memcached-pmem-master/bipbuffer.c:70-74 | in every run: with one region in use, the producer can have at least half of the free space |
| BipBuffer.BipBuf.Offer | memcached-pmem-master/bipbuffer.c:109-128 | the code appends the bytes or refuses |
| BipBuffer.BipBuf.Push | memcached-pmem-master/bipbuffer.c:91-107 | the code is the modelled push |
| BipBuffer.BipBuf.PeekAll | memcached-pmem-master/bipbuffer.c:142-149 | a peek shows a non-empty front of the queue, or tells that it is empty |
| BipBuffer.BipBuf.Poll | memcached-pmem-master/bipbuffer.c:151-180 | the code is the modelled poll |
| BipBuffer.BipBuf.WriteEntry | memcached-pmem-master/logger.c:289-316 | after a request of the line's length and 128 more, neither the push nor the offer can fail |
| LruList.UnhookedDrops | memcached-pmem-master/items.c:464-488 | unhooking an item leaves the list of the others, with head and tail |
| LruList.SwungSwaps | memcached-pmem-master/items.c:1911-1946 | the pointer shuffle of a crawl step swaps the crawler with the item before it |
| LruList.PopsFirst | memcached-pmem-master/items.c:1900-1909 | at the head the crawler is popped off and the list is the others |
| LruList.LruQueue.LinkQ | memcached-pmem-master/items.c:413-434 | the item becomes the head of the list |
| LruList.LruQueue.UnlinkQ | memcached-pmem-master/items.c:1860-1889 | the item leaves the list; a crawler popped before leaves nothing behind |
| LruList.LruQueue.LinkTailQ | memcached-pmem-master/items.c:1839-1858 | the crawler becomes the tail |
| LruList.LruQueue.CrawlQ | memcached-pmem-master/items.c:1893-1951 | the item before the crawler is returned and swapped with it, or none at the head |
| Crawler.EveryItemOnce | memcached-pmem-master/items.c:1893-1951 | a crawl that reaches the head has returned every item that stayed in place exactly once, whatever came and went |
| Crawler.PointersTransparent | memcached-pmem-master/items.c:1839-1951 | under any interleaved links and unlinks, to the crawler's removal at the head or before: head, tail and every item's pointers are those of a list that never had a crawler |
| Crawler.PointersEveryItemOnce | memcached-pmem-master/items.c:1893-1951 | on the pointers, when the crawler has no predecessor left, every item that stayed in place was returned exactly once |
| Crawler.CrawlAll | memcached-pmem-master/items.c:1839-1951 | an undisturbed crawl returns every item from tail to head, then none, and leaves the list as it was |
| Items.RemoveKeeps | memcached-pmem-master/items.c:607-621 | dropping a reference frees the item exactly if it was the last one and the item is not linked |
| Items.AttachKeeps | memcached-pmem-master/items.c:531-566 | setting LINKED, indexing and listing keep references, index, lists and counters in step |
| Items.DetachKeeps | memcached-pmem-master/items.c:568-586 | so does taking all of them back |
| Items.RelocateKeeps | memcached-pmem-master/items.c:643-681 | so does moving an item to another segment |
| Items.AttachOrder | memcached-pmem-master/items.c:413-434 | a linked item is at the head of its list, and all other orders stay |
| Items.DetachOrder | memcached-pmem-master/items.c:464-490 | an unlinked item is gone from its list, and all other orders stay |
| Items.RelocateOrder | memcached-pmem-master/items.c:649-668 | a moved item is at the head of the other segment of its class, and all other orders stay |
| ItemOps.UnlinkKeeps | memcached-pmem-master/items.c:568-586 | unlink takes the key out of the index and leaves the item allocated exactly if someone holds it |
| ItemOps.LinkKeeps | memcached-pmem-master/items.c:531-566 | link puts an absent key in the index and leaves the holders as they were |
| ItemOps.UpdateKeeps | memcached-pmem-master/items.c:643-681 | a bump moves at most the one item, and only between lists |
| ItemOps.BumpKeeps | memcached-pmem-master/items.c:1391-1412 | an asynchronous bump holds a reference exactly while its entry is in the buffer |
| ItemOps.PullOneEffect | memcached-pmem-master/items.c:1194-1335 | a turn of the tail loop keeps its reference exactly when it stops, and unlinks only a dead item or the one it evicts |
| ItemOps.PullLoopEffect | memcached-pmem-master/items.c:1177-1356 | pulling a tail leaves every reference as it was but the one it returns, unlinks nothing but dead items and at most one live one, which it was told to evict and stopped at, and touches no item of another list |
| ItemRuns.ReplaceKeeps | memcached-pmem-master/items.c:684-691 | replacing leaves the key with the new item and the holders as they were |
| ItemRuns.StepKeeps | memcached-pmem-master/items.c:531-691 | every operation keeps the invariant |
| ItemRuns.AlwaysConsistent | memcached-pmem-master/items.c:413-504 | after every run: an item's refcount is its holders plus one if LINKED, and never zero; it is LINKED iff the index finds it iff it is in exactly the list of its slabs_clsid; sizes, sizes_bytes and curr_items match |
| ItemMoves.GetEffect | memcached-pmem-master/items.c:1058-1166 | the same of the machine's get, with the refcount raised by exactly the references taken |
| ItemMoves.TwoHits | memcached-pmem-master/items.c:1126-1150 | two hits on an untouched item leave it FETCHED, then ACTIVE, with two references |
| ItemMoves.UpdateMoves | memcached-pmem-master/items.c:643-681 | an ACTIVE cold item goes to the head of warm; without segments an item not bumped for a minute goes to the head of its list; otherwise none moves |
| ItemMoves.HitMoves | memcached-pmem-master/items.c:1126-1150 | a hit without segments is an update; with them it moves nothing, and bumps the time of an item that becomes ACTIVE outside cold |
| ItemMoves.DrainMoves | memcached-pmem-master/items.c:1438-1445 | the maintainer's turn on a cold ACTIVE item puts it at the head of warm and drops the entry's reference |
| ItemMoves.ColdRescued | memcached-pmem-master/items.c:1126-1445 | a second hit on a cold item, and then the maintainer's turn, bring it to the head of warm |
| ItemMoves.LimitIsShare | memcached-pmem-master/items.c:1256-1260 | the byte limit of a segment is its percentage of the class, the warm one where the hot one comes to nothing |
| ItemMoves.TailMoves | memcached-pmem-master/items.c:1252-1354 | what becomes of a live tail: hot and ACTIVE goes to warm, hot or warm over its share or age to cold, cold and ACTIVE to warm unless evicting, an evicted one out of index and lists, and any other stays |
| ItemMoves.TailReclaimed | memcached-pmem-master/items.c:1231-1248 | a flushed or expired tail is unlinked and counted, freed exactly if no one holds it, and the loop goes on |
| ItemMoves.PullReaches | memcached-pmem-master/items.c:1193-1209 | the loop stops at the first of the last five items that it can lock and that is not dead |
| ItemMoves.PullNone | memcached-pmem-master/items.c:1193-1209 | with none of the last five items lockable it does nothing |
| ItemStore.Store.DoItemLinkQ | memcached-pmem-master/items.c:413-449 | the pointer code makes the item the head of its list, counts it, and leaves every list threaded |
| ItemStore.Store.DoItemUnlinkQ | memcached-pmem-master/items.c:464-504 | the pointer code takes the item out of its list, uncounts it, and leaves every list threaded |
| ItemStore.Store.DoItemRemove | memcached-pmem-master/items.c:607-621 | the item is freed exactly if no one else holds it and it is not linked |
| ItemStore.Store.DoItemLink | memcached-pmem-master/items.c:531-566 | the key is in the index, the holders are as before, and everything is in step again |
| ItemStore.Store.DoItemUnlink | memcached-pmem-master/items.c:568-586 | the key is out of the index, and the item stays allocated exactly if it is held |
| ItemStore.Store.DoItemReplace | memcached-pmem-master/items.c:684-691 | the key has the new item, and the holders are as before |
| ItemStore.Store.DoItemUpdate | memcached-pmem-master/items.c:643-681 | at most the one item moves, and everything is in step again |
| ItemStore.Store.LruBumpAsync | memcached-pmem-master/items.c:1391-1412 | a queued entry holds a reference, a dropped one leaves none |
| ItemStore.Store.DoItemGet | memcached-pmem-master/items.c:1058-1166 | a hit comes with one reference for the caller, and one more exactly if a bump entry was queued; a missing, flushed or expired item comes with none, and the latter two leave the index; FETCHED is set by the first hit and ACTIVE by the second |
| ItemStore.Store.LruMaintainerBump | memcached-pmem-master/items.c:1438-1445 | the oldest bump entry is applied, and its reference is dropped |
| ItemStore.Store.PullTurn | memcached-pmem-master/items.c:1206-1335 | one turn of the tail loop on the pointers is the modelled one |
| ItemStore.Store.LruPullTail | memcached-pmem-master/items.c:1177-1356 | along prev, read before the item may be relinked: every reference is as it was but the one returned, nothing is unlinked but dead items and at most one live one, which it was told to evict and stopped at, and every list stays threaded |
| ItemStore.Store.Perform | memcached-pmem-master/items.c:413-691 | every operation on the pointers does what the machine's step does, and leaves every list threaded and everything in step |
| ItemStore.Store.Serve | memcached-pmem-master/items.c:413-691 | over every run of operations the pointers lead through exactly the lists of the state the run leads to |
| ItemFlow.StepFlows | memcached-pmem-master/items.c:1248-1356 | over every operation an item flows only from hot to warm or cold, from warm to cold, or from cold to warm, within its class |
| Chunks.CopyChunks | memcached-pmem-master/memcached.c:2708-2793 | if allocation succeeds the copy ends, no chunk exceeds its size, and the destination's bytes are the old ones followed by the first len of the source |
| Chunks.CopyChunked | memcached-pmem-master/memcached.c:2722-2762 | the same from a chunked source, whatever the chunk sizes on both sides, empty chunks included |
| Chunks.CopyFlat | memcached-pmem-master/memcached.c:2763-2791 | the same from a source in one piece |
| Chunks.StoreItemCopyData | memcached-pmem-master/memcached.c:2795-2833 | append and prepend into a chunked item give the two values end to end with a single line end |
| Chunks.StoreFlatCopyData | memcached-pmem-master/memcached.c:2795-2833 | the same for an item in one piece, where the second copy overlaps the first one's line end |
| Iov.Conn.Reset | memcached-pmem-master/memcached.c:1112-1115 | what precedes every response leaves an empty queue that is ready for bytes |
| Iov.GrowthExactly | memcached-pmem-master/memcached.c:952-956 | growing the list, whatever it holds, leaves every message with its iovecs exactly if each that has any left starts where the counts of those before it end |
| Iov.GrowthAfterSend | memcached-pmem-master/memcached.c:952-956 | a response of which the first iovec has gone out does not meet that condition |
| Iov.GrowthKeeps | memcached-pmem-master/memcached.c:940-957 | a response that is being built does |
| Iov.Conn.EnsureIovSpace | memcached-pmem-master/memcached.c:934-960 | growing the list leaves every message with its iovecs |
| Iov.Conn.AddMsghdr | memcached-pmem-master/memcached.c:299-339 | a new message adds no bytes but a datagram's header |
| Iov.Conn.AddIov | memcached-pmem-master/memcached.c:971-1033 | however the bytes are cut, they are queued in order; a datagram is at most 1400 bytes and a message at most IOV_MAX iovecs |
| Iov.WireBody | memcached-pmem-master/memcached.c:332-336 | a datagram goes out as its 8-byte header and its part of the bytes, and its size is what was counted |
| Iov.StreamIsPayload | memcached-pmem-master/memcached.c:1014-1030 | on a stream connection the bytes that go out are the concatenation of the inputs |
| Iov.Conn.StartSending | memcached-pmem-master/memcached.c:5269-5276 | a queue as it was built is ready to be sent from its first message |
| Iov.Conn.Consume | memcached-pmem-master/memcached.c:5284-5297 | after a partial send exactly the bytes sent are gone from the front, iovec by iovec |
| Iov.Conn.Transmit | memcached-pmem-master/memcached.c:5266-5322 | the bytes sent, then those that remain, are those that were queued; it is complete only when none remain |
| Iov.Conn.TransmitAll | memcached-pmem-master/memcached.c:5266-5322 | over any sequence of partial sends, the bytes sent and then those that remain are the stream that was queued |
| Itoa.DecimalRoundTrip | memcached-pmem-master/itoa_ljust.c:92-117 | printed digits read back as the number and have no leading zero but in "0" |
| Itoa.PaddedSplit | memcached-pmem-master/itoa_ljust.c:92-107 | a padded number is its high digits followed by its low digits |
| Itoa.Switch | memcached-pmem-master/itoa_ljust.c:92-107 | from every entry point the fall-through switch prints all digits that are left, and a NUL |
| Itoa.ItoaU32 | memcached-pmem-master/itoa_ljust.c:109-117 | the buffer gets the number's decimal digits, NUL-terminated at the returned position, and nothing else changes |
| Itoa.Itoa32 | memcached-pmem-master/itoa_ljust.c:119-126 | the same for every signed value, the least included, with its sign |
| Itoa.ItoaU64 | memcached-pmem-master/itoa_ljust.c:128-140 | the same for every 64-bit value, nine digits at a time |
| Itoa.Itoa64 | memcached-pmem-master/itoa_ljust.c:142-149 | the same for every signed 64-bit value |
| Itoa.SuffixFits | memcached-pmem-master/memcached.c:3534-3558 | two 32-bit numbers and a 64-bit one fit the suffix buffer with room to spare |
| Itoa.SuffixReads | memcached-pmem-master/memcached.c:3534-3558 | a suffix reads back as flags, size and CAS, in this order, up to the line end |
| Itoa.MakeAsciiGetSuffix | memcached-pmem-master/memcached.c:3534-3558 | the suffix is the flags, the size and the cas in that order with a line end, NUL-terminated within 50 bytes |

## Left out

- Sockets, libevent, the connection state machine, command parsing, SASL and process start-up: foreign calls and I/O.
- Statistics text, logger formatting, prefix statistics, slab automove and the small object cache: easy members.
- Hash functions: a hash value is an arbitrary function of the key.
- Allocation failures outside chunk copying; a failed calloc in assoc_expand leaves the table as it was and is no step.
- The threshold at which assoc_insert asks for an expansion: an expansion may start at any time workers are idle.
- Externally stored objects are not empty, each bucket has one writer, preads and pwrites are whole, and the version counter is unbounded.
- The storage engine's stacks of write buffers and I/O objects and its I/O queues are sequences, without their next pointers.
- The compaction callback of storage.c and its accounting.
- Crashes during pool creation and headers with valid == 0.
- Durability of in-place updates, of refcounts and list pointers, and of a chunk's size and used fields: the code does not order them, or rewrites them at start-up. A payload byte stored to in place is no longer settled, and the crash theorems are about unchunked items.
- CommitRuns.KeysSurviveCrash: a key's length that is changed after alloc and not flushed before link can be lost, as ItemCommit.LinkKeepsExactly says; the code stores it only in alloc, but an item read back from external storage and linked again (memcached-pmem-master/memcached.c:679-696) has its whole header from the read, not flushed.
- Recovery says nothing about slots that were LINKED but dropped as flushed or expired, nor about the last chunk's next pointer: the code does not reset those fields.
- Tail repair in lru_pull_tail, which overrides refcounts; the crawler entries it skips; and the ITEM_HDR variant of sizes_bytes.
- Items.RelocateKeeps: the moment between leaving one list and entering the next is not a state of its own; the item's lock is held throughout.
- ItemStore.Store.LruMaintainerBump: an entry leaves the queue as it is applied; the code polls the batch afterwards, as BipBuffer models, and only this thread reads it.
- ItemStore.Store keeps the index as a map; its hash chains are modelled by AssocTable.HashTable.
- BipBuffer.BipBuf.Push: sizes are natural numbers; the signed int parameter is never negative in any caller.
- Iov.Conn.EnsureIovSpace: stated for a response that is being built, before its first send; callers reset the lists before they build the next one, and Iov.GrowthExactly says why they must.
- Iov.Conn.AddMsghdr: allocation of the message list succeeds, and the header's bytes are filled in by code that is not modelled.
- assoc_back.c and items_back.c, which repeat the modelled files.
