# sled in Dafny

A model of the core of sled, an embedded database, and proofs about it. sled is a B-link tree
over a page cache over a segmented log. The model follows those three layers and the pieces
they share, and each layer's theorems are about whole runs: any number of threads, steps in any
order, and for the log a crash between any two steps.

- **The log.** `Stability` turns finished writes, reported out of order, into one stable LSN.
  `WriteLog` is the write path as a machine over its atomic steps (reservations, batches,
  sealing, buffers that reach the disk byte by byte and in any order), and `WriteLogRuns` proves
  what every step keeps. `HeaderWord` and `BufferClaims` are the packed header word and the
  compare-and-swap protocol on it. `LogIterator`, `Recovery` and `Replay` are recovery as
  imperative code: scan the segment headers, find the end of the contiguous log, replay up to
  it. `Crashes` and `Durability` join the two: write, crash anywhere, recover, write again, any
  number of times.
- **Segments.** `SegmentTally`, `Segments` and `Accountant` are the segment accountant with its
  counters, its truncation and its cleaner; `SegmentOrder` and `SegmentRuns` are about the link
  and replace operations that reach it late and in any order.
- **The page cache.** `PageLog` and `PageCas` are pages in memory and their records in the log
  under concurrent link, replace, rewrite, page-out and page-in; `FuzzySnapshot` is the snapshot
  taken page by page meanwhile. `IdGen`, `ConcurrencyControl`, `Dll` and `Lru` are the ID
  generator, the upgradable lock and the LRU cache.
- **The tree.** `Tree` is the B-link tree as a machine over its page swaps, `TreeRuns` its
  invariants, `TreeMap` its meaning as a map, and `TreeReads` readers that load every page at a
  moment of their own. `NodeLayout`, `NodeBuild`, `NodeStitch`, `NodeReplace`, `NodeReads` and
  `NodeOps` are one node's byte layouts, their construction, their editing in place, their reading
  by machine words, and search, split and merge on the contents; `Places` is the theory of filling a buffer whose parts have fixed places. `Scan` is
  the range iterator and `scan_prefix`. `Keys` orders keys.
- **Bytes.** `Varint`, `Serialization` and `Formats` are the on-disk formats.

`dafny verify dfyconfig.toml` checks everything.

## Model

| member | source | states |
|---|---|---|
| `Stability.StabilityIntervals.MarkFsync` | src/pagecache/iobuf.rs:187-284 | Reporting a finished interval, given as pending ranges that are merged, sorted and absorbed, covers exactly the old places and the new ones; the stable LSN moves to the end of the gap-free part; the published value is the stable LSN, or one below the first batch that is not completely stable. |
| `Stability.StabilityIntervals.MarkBatch` | src/pagecache/iobuf.rs:182-185 | A batch above the stable LSN is recorded and the structure stays valid. |
| `Stability.StableIsGapFreeEnd` | src/pagecache/iobuf.rs:187-284 | In every run of reports and batches, in any order, everything up to the stable LSN was reported and the next place was not; the published LSN never falls and is never inside a batch. |
| `WriteLogRuns.StartInv` | src/pagecache/iobuf.rs:345-405 | A process that begins in a fresh segment or inside a recovered one begins in a good state. |
| `WriteLogRuns.StepKeepsInv` | src/pagecache/logger.rs:235-335 | Every step of the write path (reserve, begin a batch, peg it, finish, seal a buffer with room left or full, a byte range reaching the disk, report) keeps the layout of the log, the chain of buffers, LSN and offset agreeing modulo the segment size, what is on disk, and where batches end. |
| `WriteLogRuns.MarkBatchAllowed` | src/pagecache/reservation.rs:72-100 | The assertion of `mark_batch` never fails: the stable LSN is below a batch that is being marked, because the batch's own reservation keeps its buffer unwritten. |
| `WriteLogRuns.ReportIsFresh` | src/pagecache/iobuf.rs:849-881 | A buffer's interval is not empty and no part of it was reported before, which is what the stability intervals ask of their caller. |
| `WriteLogRuns.StableIsOnDisk` | src/pagecache/iobuf.rs:800-819 | Everything that begins at or below the stable LSN is on disk, except padding too short to be read. |
| `WriteLogRuns.OpenHoldsBack` | src/pagecache/mod.rs:888-897 | An open reservation holds the log back: the published stable LSN is below its LSN, so the last segment that stabilization may close comes before the segment of the reservation; completing it only after the accountant was told is what rules the race out. |
| `WriteLogRuns.RolledLsn` | src/pagecache/iobuf.rs:1106-1160 | Rounding a full buffer's LSN up to the next segment gives its LSN plus its capacity. |
| `HeaderWord.PackReads` | src/pagecache/header.rs:16-52 | The accessors of the packed 64-bit header read back the four fields. |
| `HeaderWord.CountIsExact` | src/pagecache/header.rs:37-47 | Adding or removing a writer changes the writer field only. |
| `HeaderWord.FlagsAreExact` | src/pagecache/header.rs:20-30 | Setting a flag changes that flag only. |
| `HeaderWord.BumpIsExact` | src/pagecache/header.rs:55-58 | Bumping the offset changes the offset field only if and only if the new offset fits into 24 bits. |
| `HeaderWord.BumpOverflows` | src/pagecache/header.rs:55-58 | A claim that ends at byte 2^24 leaves offset 0 and one writer too many, whatever the other fields are. |
| `BufferClaims.ClaimsTile` | src/pagecache/logger.rs:235-335 | In every run of threads swapping the header word, up to a claim that fills a buffer of 2^24 bytes, the claims are disjoint, inside the buffer, and tile it from its start; the writer field counts the open reservations; the buffer is handed over once, exactly when it is sealed and has no writer. |
| `BufferClaims.ClaimIsExact` | src/pagecache/logger.rs:290-335 | A claim keeps the invariant, and the writers are counted right after it, if and only if it ends below byte 2^24. |
| `BufferClaims.FillingMiscounts` | src/pagecache/logger.rs:290-335 | The same at the end of any run: the condition of `ClaimsTile` is exact. |
| `BufferClaims.FullBufferMiscounts` | src/config.rs:513-516 | A run of one thread that writes messages of 44 and 32 bytes until a segment of 2^24 bytes, which the configuration allows, is full: nobody writes, one writer is counted, and the next claim begins at byte 0. |
| `BufferClaims.SealedIsFinal` | src/pagecache/logger.rs:419-471 | After sealing, nothing is claimed any more. |
| `LogIterator.LogIter.Next` | src/pagecache/iterator.rs:23-250 | `next` returns the next record of the log with everything before it readable, or None exactly where the log cannot be read, leaves the segments given, exceeds the limit, or meets a batch that does; in the last stage it may skip a hole, and says so. |
| `Recovery.ScanHeaders` | src/pagecache/iterator.rs:284-401 | The segments whose headers are on disk, in LSN order, and the highest stable LSN that a header recorded. |
| `Recovery.LogicalTail` | src/pagecache/iterator.rs:277-401 | From a given segment on, the longest run of segments without a gap, and the first missing one below another. |
| `Recovery.EndOfTail` | src/pagecache/iterator.rs:403-464 | `check_contiguity_in_unstable_tail` finds an end up to which everything can be read, behind everything stable. |
| `Recovery.Drain` | src/pagecache/iterator.rs:23-179 | Running the iterator to its end yields exactly the records that it passed, in order. |
| `Replay.RecoveredPrefix` | src/pagecache/snapshot.rs:258-445 | What is replayed is the records of a prefix of the log that can be read completely, that holds everything at or below the published stable LSN, and that holds each batch entirely or not at all. |
| `Replay.IteratorIsMonotonic` | src/pagecache/snapshot.rs:331-345 | The iterator stops at least a segment header into its segment, or at a boundary and outside of any segment, which is what recovery tests. |
| `Replay.Recover` | src/pagecache/snapshot.rs:258-497 | For every disk that a crash can leave, recovery computes the old snapshot plus the records of such a prefix that are newer than it, and the place where writing goes on. It reports corruption if and only if the new stable LSN would be below that of the snapshot; the other corruption tests never fire. |
| `Crashes.CrashIsDurable` | src/pagecache/iobuf.rs:594-881 | Whatever a crash leaves of a reachable state can be recovered: it meets what `Recover` asks. |
| `Durability.StableIsNeverLost` | src/pagecache/iobuf.rs:849-881 | In every run, with any number of crashes at any points, the records that were stable once are a prefix of the stable records at any later time. |
| `Durability.RecoverAfterCrash` | src/pagecache/snapshot.rs:483-497 | After a crash at any point of any run, recovery succeeds, and what it computes is the snapshot and the start of the run's next state; so runs with crashes always go on. |
| `Durability.SnapshotIsNotAhead` | src/pagecache/snapshot.rs:383-405 | In every run the log that recovery reads reaches at least to the snapshot's stable LSN. |
| `Durability.BuffersTile` | src/pagecache/iobuf.rs:1059-1252 | In every run, each buffer ends with its segment, LSN and file offset agree modulo the segment size, and every LSN from the process start to the current buffer lies in exactly one reported interval. |
| `Accountant.SegmentAccountant.Next` | src/pagecache/segment.rs:1015-1083 | `next` hands out the lowest free segment, or a new one at the tip when none is free; that segment holds no page, nothing is pending for it, and what replaced its last pages is stable. |
| `Accountant.SegmentAccountant.MarkLink` | src/pagecache/segment.rs:831-864 | The segment of the new fragment is active at the fragment's LSN, as the source asserts, and its counters gain exactly that fragment. |
| `Accountant.SegmentAccountant.MarkReplace` | src/pagecache/segment.rs:748-826 | Every segment loses exactly the page's old fragments that lay in it and the new one's gains the new base; segments that become empty are freed or wait for the replacement to be stable. |
| `Accountant.SegmentAccountant.PossiblyCleanOrFree` | src/pagecache/segment.rs:866-922 | A segment that can be freed is freed when the replacement is stable and deferred otherwise; a thin one is drained and its pages go to the cleaner; the invariants stay. |
| `Accountant.SegmentAccountant.FreeSegment` | src/pagecache/segment.rs:682-728 | A freed segment joins the free list, after which the free tail of the file is cut off. |
| `Accountant.SegmentAccountant.Truncate` | src/pagecache/segment.rs:1113-1150 | Truncation removes exactly the free segments at the end of the file. |
| `Accountant.SegmentAccountant.Stabilize` | src/pagecache/segment.rs:924-961 | With operations outstanding only where their reservations are open, `stabilize` leaves no segment active up to the stable LSN and none waiting for one up to it, and keeps every page where it was. |
| `SegmentOrder.OrderIsIrrelevant` | src/pagecache/segment.rs:733-742 | Applying the same operations in any two orders gives every segment the same counters. |
| `SegmentOrder.ApplyAll` | src/pagecache/iobuf.rs:464-476 | Draining a stack of operations on active segments gives every segment the effects of all of them, and the cleaning after each removal does nothing. |
| `SegmentOrder.DrainingIsUnique` | src/pagecache/iobuf.rs:428-499 | Whatever the order in which such a stack is drained, the accountant ends in the same state. |
| `SegmentRuns.NothingFails` | src/pagecache/segment.rs:225-452 | In every run of page swaps at any moment, also in the middle of a stabilization, reports that come late and in any order, stabilization part by part, and new segments, no assertion of the accountant or of a segment's state changes can fail. |
| `SegmentRuns.FreeIsDead` | src/pagecache/segment.rs:682-728 | In every run, a free segment holds no page, no operation on it is outstanding, and what replaced its last pages is stable. |
| `SegmentRuns.LiveIsInUse` | src/pagecache/segment.rs:748-864 | In every run, a page's fragments lie in segments that are in use, at LSNs up to the page's last. |
| `PageLog.FuzzyPage` | src/pagecache/snapshot.rs:146-236 | A page captured late enough, and then given the remaining records, ends in the state that all its records give. |
| `PageCas.StepKeepsInv` | src/pagecache/mod.rs:777-954 | Every step of allocate, link, replace, free, rewrite, move, page-out and page-in keeps: fragments are the page's last records, they replay to the contents, and every record's status matches its operation. |
| `PageCas.MemoryMatchesLog` | src/pagecache/mod.rs:2099-2191 | At every moment of every run, the fragments of a page replay to the node in memory, a page that is paged out can be read back, and no page has more than ten fragments. |
| `PageCas.EqualStampsEqualContents` | src/pagecache/mod.rs:1584-1723 | At any two moments of a run, a page with the same timestamp holds the same, which is what optimistic readers and rewrites rely on. |
| `PageCas.OneWinner` | src/pagecache/mod.rs:1584-1723 | Of all updates based on one timestamp of a page, at most one succeeds. |
| `FuzzySnapshot.SnapshotIsExact` | src/pagecache/mod.rs:956-1020 | Replaying the remaining records onto a snapshot whose pages were captured at different moments gives each page the state that replaying the whole log from nothing gives. |
| `FuzzySnapshot.CaptureIsReplay` | src/pagecache/mod.rs:425-445 | A captured page is what replaying all its records gives. |
| `ConcurrencyControl.WriterIsAlone` | src/concurrency_control.rs:54-103 | In every run, a thread that holds the write protector is the only one protected, also while the lock is being upgraded. |
| `ConcurrencyControl.QuietCounter` | src/concurrency_control.rs:41-51 | The counter of an idle lock is zero apart from the upgrade bit: no increment is lost and none is undone twice. |
| `IdGen.IdsAreUnique` | src/pagecache/mod.rs:1934-1985 | Over any run of overlapping calls, crashes and recoveries in which each call returns an ID below what a recovery would start from, no ID is handed out twice. |
| `IdGen.ReturnIsSafe` | src/pagecache/mod.rs:1934-1985 | Returning an ID keeps IDs unique whatever follows, if and only if the ID is below what a recovery from the durable counter would start from. |
| `IdGen.OverlapRepeats` | src/pagecache/mod.rs:1934-1985 | A run of two overlapping calls and a crash that hands out an ID twice. |
| `IdGen.IdsRise` | src/pagecache/mod.rs:1934-1985 | When calls do not overlap, every ID is above all earlier ones, over any run with crashes. |
| `Dll.DoublyLinkedList.PushHead` | src/dll.rs:74-99 | The new node is the head, the others keep their order, and all links are right. |
| `Dll.DoublyLinkedList.PopTail` | src/dll.rs:165-185 | The oldest node leaves the list, and all links are right. |
| `Dll.DoublyLinkedList.Promote` | src/dll.rs:122-140 | A node anywhere in the list becomes the head, the others keep their order, and all links are right. |
| `Lru.Shard.Accessed` | src/lru.rs:313-351 | The item becomes the most recent one with its new size; the evicted items are the least recent ones, in order, no more of them than the capacity asks for, and never the item just accessed; sizes are accounted exactly. |
| `TreeRuns.StructuralKeepsInv` | src/tree.rs:1563-2223 | Every step of split, parent split, root hoist, merge intention, cap, walk, absorb, confirm and free keeps: levels are linked without overlap, index items point to nodes that begin at their key, merges are pending only where announced, and what threads saw earlier is still usable. |
| `TreeRuns.SiblingIsLive` | src/tree.rs:2060-2180 | A thread that walks right to a page pointing to the merging child is at the child's live left sibling, whose high key is the child's low key. |
| `TreeMap.OwnerIsReachable` | src/tree.rs:1720-1905 | In every run, every key has exactly one leaf that owns it, and that leaf is reached from the root by descents and right moves. |
| `TreeMap.BindsOneValue` | src/tree.rs:1720-1905 | The tree is a map: it binds a key to at most one value. |
| `TreeMap.MapIsKept` | src/tree.rs:1563-2223 | In every run, no structural step changes any key's value. |
| `TreeMap.UpdateChangesOneKey` | src/tree.rs:1121-1186 | A leaf update binds or unbinds its key and changes no other key. |
| `TreeMap.ViewForKey` | src/tree.rs:1720-1905 | One pass ends, and ends at the leaf that owns the key, at an index page that needs help with a merge, or behind a root hoist that is not finished. |
| `TreeMap.LeftSibling` | src/tree.rs:2060-2140 | A merging child on the chain has a left sibling under the same parent that can take it in. |
| `TreeReads.ReadIsCurrent` | src/tree.rs:1720-1905 | In every run, whatever changes between a reader's loads, the leaf that it returns holds the key's value of the moment it was loaded. |
| `TreeReads.PassGoesOn` | src/tree.rs:1748-1870 | A reader never gets stuck: a page that ends at or before the key has a right sibling, and an index page has an item at or before the key. |
| `TreeReads.LeftmostIsRoot` | src/tree.rs:1805-1825 | What `view_for_key` asserts before it hoists the root: a page that begins at the empty key, before any descent, is the root it started from. |
| `TreeReads.MergingChildIsInside` | src/tree.rs:2040-2060 | What `merge_node` asserts: the merging child is an item of its parent and not the leftmost one. |
| `TreeReads.JoinedAreNeighbours` | src/node.rs:1261-1275 | What `receive_merge` asserts of the two nodes it joins: they touch, are on one level, and neither is in another merge. |
| `Keys.RankIsOrder` | src/node.rs:1401-1427 | Mapping byte strings to reals keeps their order and tells them apart, so the tree may compare numbers. |
| `NodeBuild.ChooseLayout` | src/node.rs:165-290 | The chosen layout (fixed or varint-prefixed keys and values, width of offsets) can hold the items. |
| `NodeBuild.New` | src/node.rs:165-370 | For every list of at most 65535 items that six-byte offsets can address, the bytes written encode exactly that list and the bounds: every key, value and offset reads back. |
| `NodeStitch.Stitch` | src/node.rs:620-1046 | Inserting, replacing or removing an item, in place or by rebuilding, yields bytes that encode the edited list, under the old layout or under the one that `Node::new` chooses; it fails if and only if the removal of the last item writes a table entry past the node. |
| `NodeStitch.NarrowNeverStrays` | src/node.rs:510-519 | With offsets of one or two bytes that never happens. |
| `NodeStitch.WideCanStray` | src/node.rs:845-855 | In the layout that `Node::new` chooses for a value of 70000 bytes and a small one, it does. |
| `NodeStitch.RemoveBig` | src/node.rs:1048-1052 | Building that node and removing its last item fails. |
| `NodeReplace.Replace` | src/node.rs:1069-1100 | Replacing a value, over the old one if it has the same length and by stitching otherwise, yields bytes that encode the same items with that one value changed. |
| `NodeReads.RawIsOffset` | src/node.rs:473-508 | Reading eight bytes at a table entry and masking gives the entry, wherever those bytes lie inside the node. |
| `NodeReads.NewReadsInside` | src/node.rs:238-257 | In every node that `Node::new` builds they do. |
| `NodeReads.StitchReadsInside` | src/node.rs:760-775 | After an edit they do if and only if the item that goes leaves enough bytes behind the table. |
| `NodeReads.InsertReadsInside` | src/node.rs:1054-1067 | Insertions into a node with items always do. |
| `NodeReads.RemoveShort` | src/node.rs:1048-1052 | Building a leaf with a value of 300 bytes and removing it leaves a node whose one table entry is read past its end. |
| `NodeOps.Find` | src/node.rs:1401-1427 | Binary search returns the key's index, or the index where it belongs. |
| `NodeOps.WeightedSplitPoint` | src/node.rs:1102-1123 | The split lies where the average of the activity bits points, in the middle without activity, and both halves get at least one item. |
| `NodeOps.SeparatorBetween` | src/node.rs:1125-1190 | The shortened separator lies above every left key and at or below every right key. |
| `NodeOps.SplitIsSound` | src/node.rs:1125-1259 | Both halves are well formed under their own, possibly longer, prefixes, meet at the separator, and together hold the node's items. |
| `NodeOps.MergeWellFormed` | src/node.rs:1261-1318 | Two neighbours re-encoded under the shorter prefix are a well-formed node. |
| `NodeOps.MergeUndoesSplit` | src/node.rs:1125-1318 | Merging the halves of a split restores items, bounds and next pointer. |
| `Scan.Successor` | src/node.rs:1667-1705 | For every lower bound below the leaf's end: the first item that it admits, or none, if and only if not an excluded bound lies below the leaf and is shorter than its prefix (then it panics) or ends like its first item (then it skips that item). |
| `Scan.ExcludedHidesItem` | src/node.rs:1693-1698 | A leaf and an excluded bound below it for which `successor` does not return the first item that the bound admits. |
| `Scan.Iter.Next` | src/iter.rs:86-146 | The least entry still inside the bounds, or None for good. |
| `Scan.Collect` | src/iter.rs:86-156 | Iterating to the end yields exactly the entries inside the bounds, each once, in increasing order. |
| `Scan.PrefixRange` | src/tree.rs:1387-1402 | The range of `scan_prefix` holds exactly the keys that start with the prefix, also for prefixes of 255s. |
| `Varint.VarintRoundTrip` | src/varint.rs:4-99 | Every 64-bit integer, followed by anything, reads back, in the predicted number of bytes. |
| `Serialization.SerializeSequence` | src/serialization.rs:646-670 | The writing loops write the items one after the other. |
| `Serialization.DeserializeSequence` | src/serialization.rs:678-705 | The lazily consumed sequence, with its bound and its stop at the end of the buffer, reads what the recursive reader reads. |
| `Serialization.PtrBack` | src/serialization.rs:513-551 | A disk pointer of either kind reads back, and its size is the one computed. |
| `Formats.LinkBack` | src/serialization.rs:314-381 | A link of any kind reads back, and its size is the one computed. |
| `Formats.HeaderBack` | src/serialization.rs:93-117 | A message header reads back and fits the space that the log reserves for it. |
| `Formats.PageBack` | src/serialization.rs:554-605 | A page state reads back if and only if it has at most 254 fragments. |
| `Formats.FullPageIsLost` | src/serialization.rs:571-605 | With 255 fragments the count wraps to zero, and a free page is read. |
| `Formats.FullPageExample` | src/serialization.rs:571-605 | Such a page state. |
| `Formats.PageSizeIsExact` | src/serialization.rs:555-569 | The computed size of a page state is the number of bytes written. |
| `Formats.MetaBack` | src/serialization.rs:286-311 | The meta page reads back to the same map. |
| `Formats.RecordsGoBack` | src/serialization.rs:93-551 | With the integer formats of the source, links, disk pointers and message headers read back. |
| `Formats.TablesGoBack` | src/serialization.rs:286-485 | With the integer formats of the source, snapshots and the meta page read back, and their computed sizes are exact. |

## Findings

Six properties that look intended do not hold of the code. The model keeps the code as it is,
shows an input for each, and states exactly when the property holds.

- `stitch`, src/node.rs:853 with src/node.rs:515: removing the last item still writes that
  item's table entry. It lands in the bytes behind the table if there are enough of them, and
  otherwise the slice index panics. `NodeStitch.Stitch` fails if and only if the entry ends
  behind the node (`StrayPast`); `NarrowNeverStrays` rules it out for offsets of one or two
  bytes; `WideCanStray` and `RemoveBig` show it for a leaf with a value of 70000 bytes.
- Page states, src/serialization.rs:579: `1 + frags_len` wraps at 255 fragments, and the page
  reads back as a free one (in a build with overflow checks it panics). `Formats.PageBack`: a
  page state reads back if and only if it has at most 254 fragments. `PageCas.MemoryMatchesLog`
  shows that the page cache never lets a page have more than ten.
- `bump_offset`, src/pagecache/header.rs:55: an offset that does not fit into 24 bits carries
  into the writer count. `HeaderWord.BumpIsExact`: the bump is exact if and only if the new
  offset is below 2^24. src/config.rs:513 allows segments of 2^24 bytes, and the red zone of
  `reserve_inner` does not keep a message from ending with the segment:
  `BufferClaims.FullBufferMiscounts` is a run that does. The buffer then never counts down to no
  writer. `ClaimsTile` holds for every run that does not fill such a buffer, and
  `FillingMiscounts` shows that this condition is exact.
- `offset`, src/node.rs:473 with src/node.rs:238: a table entry is read as eight bytes, and
  `Node::new` pads the values so that this stays inside the node. `stitch` does not pad.
  `NodeReads.StitchReadsInside`: the reads stay inside if and only if the bytes behind the table
  are enough after the edit; `RemoveShort` is a removal after which they are not.
- `successor`, src/node.rs:1693: an excluded bound is compared with the items without regard to
  the prefix that the items leave out. `Scan.Successor` states exactly for which bounds the
  result is right; `ExcludedHidesItem` is one that hides an item. src/iter.rs:103-118 never asks
  with such a bound, which is why `Scan.Collect` holds.
- `generate_id_inner`, src/pagecache/mod.rs:1961 and 1980: a call that finds the counter already
  raised by another call waits for no record to become durable, so it can return an ID that is
  handed out again after a crash. `IdGen.ReturnIsSafe`: returning is safe if and only if the ID
  is below the durable counter plus twice the interval; `OverlapRepeats` is the run; `IdsRise`
  covers calls that do not overlap.

## Left out

- File I/O, fsync variants, checksums and compression: a message is on disk or it is not, and what is not on disk completely reads as corrupted.
- Weak memory: every atomic operation is one step of a sequentially consistent machine.
- Segment reuse in the log: `WriteLog` never reuses a segment; that a reused one holds nothing live is `SegmentRuns.FreeIsDead`.
- Sealing a full buffer, taking the next segment and swapping the buffer are one step of `WriteLog` (`SealMaxed`); threads that find the old buffer sealed meanwhile only spin.
- Recovery is one step: a crash during recovery, and the zeroing of the torn tail, are not modelled.
- Reservations in `SegmentRuns` are not steps of their own: a swap and a stabilization take from them that the log is not stable where a reservation is open, and a reservation is completed after its operation was reported; `WriteLogRuns.OpenHoldsBack` proves the first half over the runs of the log, and the two state machines are not joined into one.
- Heap items: pointers to heap files are opaque values; `Accountant` and `PageCas` keep no heap.
- Page-ID reuse: a page ID freed in the tree is not allocated again, so epochs are not needed.
- Keys in `Tree` are ranks, that is reals; `Keys.RankIsOrder` says why nothing is lost.
- The order of steps inside `possibly_clean_or_free_segment` is kept; which threads relocate the cleaner's pages is not modelled.
- Accountant.SegmentAccountant.constructor: starts from an empty snapshot only; `initialize_from_snapshot` is not modelled.
- BufferClaims.ClaimsTile: not for runs that fill a buffer of exactly 2^24 bytes, for which it is false; see the findings.
- Scan.Iter.Next: the tree does not change during the scan, backward iteration (`next_back`) is not modelled, and neither is the panic after `MAX_LOOPS` rounds over empty leaves.
- IdGen.IdsAreUnique: IDs do not wrap at 2^64.
- FuzzySnapshot.SnapshotIsExact: the snapshot's file and its two-phase renaming are not modelled.
- Lru.Shard.Accessed: one shard; the lock-free queue in front of it is not modelled.
- Merge operators, transactions, subscribers, `compare_and_swap`, export and import, configuration and metrics: they would add easy members or need code outside the core.
