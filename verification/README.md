# Verified models of xiaoDb's storage-engine cores

xiaoDb is a port of RocksDB's storage-engine internals. This project models its stateful cores in Dafny 4.11 and proves
what they promise. `dafny verify dfyconfig.toml` checks everything.

Each core is modelled twice. An imperative form follows the source's steps: link and unlink, probe and relink, append and
truncate, push and pop. A simple form says what it is for: a directory and an ordered list of handles, a list of
records, a sorted list of keys, a greedy choice, a least log. The imperative form is proved to refine the simple one, and the
promises are proved of the simple one, for every input and, where they are about runs, for every run.

| files | what they model |
|---|---|
| `LruList`, `LruTable`, `LruSpec`, `LruShard`, `LruCache`, `LruRuns`, `LruMeaning` | a shard of the LRU cache: the circular list in three priority segments, the hash table with intrusive chains, reference-counted handles, the charge totals, runs of all operations, and what each operation means to a caller |
| `LruWalk`, `LruTour` | the resumable cursor that walks the table of a shard; walks over tables that change between the calls, and the round over all shards |
| `BatchCodec`, `BatchIterate`, `BatchState`, `BatchIntegrity`, `WriteBatch` | the write batch: record encoding, replay to a handler with retries, save points, concatenation, content flags, checksums per entry |
| `BatchRecovery` | the memtable inserter: recovery of two-phase commits from a log, and the sequence numbers of a write group |
| `SkipListSpec`, `SkipList`, `MemTableList` | the skip list with its remembered predecessors |
| `SeqnoToTimeSpec`, `SeqnoToTimeThinning`, `SeqnoToTimeReducer`, `SeqnoToTimeMapping` | the samples that relate sequence numbers to times: merging, pruning, thinning with a priority queue, queries, encoding |
| `Reservation` | cache reservations with dummy entries, and the accounting between primary and secondary cache |
| `PrepTracker` | the tracker of logs with outstanding prepared sections, as a protocol of several threads |
| `Arena`, `ConcurrentArena` | the arena and its sharded front |
| `KeyParts`, `IterKey` | the key of a block iterator: delta decoding with a padded timestamp, in two alternating buffers |
| `Coding`, `Seal` | fixed-width numbers, base-128 numbers and length-prefixed slices; a way to use predicates by name |

Properties that turned out false of the code are stated with a witness and with the exact condition under which they hold:

- A walk over all entries, over a table that may grow meanwhile, ends exactly when at least one entry per lock is asked for;
  2^31 calls are then enough (`WalkEndsIff`). The cache asks for the lesser of the option and 1, so 0 stays 0.
- A slice of a record survives encoding exactly when its length fits 32 bits (`LengthPrefixedRoundTrip`,
  `RecordRoundTrip`, `LongSliceIsLost`). A timed put accepts values whose packed form does not
  (`AcceptedTimedPutFitsIff`, `LongTimedPutIsLost`).
- A replay is defined exactly when every timed put it reads has eight bytes for the time: the source only asserts that, and
  otherwise computes with a negative size (`DefinedIff`; the bytes 0x18 0 0 in `ShortTimedPut`).
- For the log only, an append takes the records up to the termination point exactly when the batch still begins with them.
  A rollback behind that point does not clear it (`JoinIff`, `AppendBatch`, `RollbackToSavePoint`, `LostTermination`).
- A failed append and a rollback restore the checksum entries exactly when these are fewer than 2^32, since a save point
  counts them with 32 bits (`Add`, `CutRepresents`); the check of a batch passes under the same condition
  (`BuiltBatchVerifies`), and never looks at bytes behind the last record with an entry (`TailIsNotChecked`).
- Sorted and merged samples are in time order exactly when no reading falls back to or below an earlier one after only later
  readings in between (`MergedTimesIncreaseIff`, `MergedTimesMayRegress`). The search by time answers one query right
  exactly when it is not misled (`SearchRightIff`, `SearchMayMiss`), and all queries exactly when the samples satisfy a
  condition on the search tree (`EveryTimeRightIff`).
- A mapping that decodes samples while empty and without limits is in order exactly when the samples are
  (`DecodeFrom`, `DecodedOutOfOrder`).
- A shard fits into a new capacity exactly when what is pinned does (`SetCapacityFitsIff`).
- Less than a chunk of the placeholders is not reserved as long as they have always fitted the capacity; once they have gone over
  it much more may stay unreserved, since a release never reserves (`InsertPlaceholder`, `Run`, `ReservedLags`).
- An aligned request served by an arena shard is aligned to words, and to the unit of the arena exactly when the bytes cut from
  the front of the shard since its last refill are a multiple of it (`CarvedAlignedIff`, `ShardAlignmentIsWeaker`).
- `TrimAppend` keeps the shared bytes exactly when the key is not in the secondary buffer, or the first buffer has to grow or
  holds the same bytes (`TrimAppend`, `MixedKeyIsLost`).

Modelling choices. C++ pointers to handles, nodes and blocks are numbers that index maps or sequences, so sharing, dangling
and double release can be expressed. Where lengths or differences can wrap, they wrap in the model (`Sub64`, counts modulo 2^32,
length prefixes modulo 2^32); elsewhere numbers are unbounded. `double` ratios are exact real or rational numbers. Hash
functions, random heights, addresses from `malloc`, clocks and the answers of another cache are parameters. XOR is
symmetric difference of sets of bit positions. Locks are step boundaries. Objects that the source updates in place are
classes; the larger ones (shard, batch, skip list) hold one record, and the steps on its parts are methods from record to
record.

## Model

| member | source | states |
|---|---|---|
| LruList.SpillIsLeast | cache/lru_cache.cc:337-363 | the number of oldest entries moved out of a full segment is the least that makes the rest fit, for every segment, charges and limit |
| LruList.MaintainedHighFits | cache/lru_cache.cc:337-363 | after trimming, the charges of the high segment fit its limit |
| LruList.MaintainedLowFits | cache/lru_cache.cc:337-363 | after trimming, the charges of the low segment fit its limit, entries spilled into it included |
| LruList.MaintainPoolSize | cache/lru_cache.cc:337-363 | the two loops over links, flags, boundary pointers and pool totals turn a list of three segments into the trimmed one: order kept, boundaries at the segment ends, totals exact |
| LruList.UnlinkKeepsRing | cache/lru_cache.cc:258-286 | unlinking an entry leaves a circular doubly linked list of exactly the others, in order |
| LruList.LinkKeepsRing | cache/lru_cache.cc:288-335 | linking an entry behind another leaves a circular list with it in that place |
| LruList.LRURemove | cache/lru_cache.cc:258-286 | removing an entry, also one a boundary pointer points at, gives the list without it: links, both boundaries, flags and all three totals |
| LruList.LRUInsert | cache/lru_cache.cc:288-335 | the entry becomes the newest of the best segment its priority and hits allow under the pool ratios, then segments that overflow spill; all totals exact |
| LruTable.FindPointer | cache/lru_cache.cc:80-88 | finds the slot that points at the entry for the tag, or the empty end of its chain exactly when there is none |
| LruTable.Lookup | cache/lru_cache.cc:43-46 | answers as the directory from tags to entries does |
| LruTable.Insert | cache/lru_cache.cc:48-66 | the directory with the entry for its tag; returns the one replaced; resizing on the way changes no answer and never shrinks the table |
| LruTable.Remove | cache/lru_cache.cc:68-78 | the directory without the tag; returns what was there; the table keeps its size |
| LruTable.Resize | cache/lru_cache.cc:90-126 | doubling the buckets, and relinking every chain in place, keeps the directory and the element count; no more bits than allowed |
| LruTable.ListedCount | cache/lru_cache.cc:90-126 | counting the relinked entries gives the size of the directory, the assertion at the end of resizing |
| LruSpec.InsertInv | cache/lru_cache.cc:423-492 | insertion keeps the shard invariant: every handle in exactly one state, the list exactly the unreferenced handles in the table, usage the sum of charges, nothing waiting over capacity |
| LruSpec.LookupInv | cache/lru_cache.cc:494-515 | a hit takes the entry off the list if nobody held it, and keeps the invariant |
| LruSpec.RefInv | cache/lru_cache.cc:517-524 | one more reference keeps the invariant |
| LruSpec.ReleaseInv | cache/lru_cache.cc:542-599 | releasing, with or without erasing, keeps the invariant and never raises the usage; over capacity the list is empty, as the source asserts |
| LruSpec.StandaloneInv | cache/lru_cache.cc:642-679 | creating a handle outside the table keeps the invariant, charged or not |
| LruSpec.SetCapacityInv | cache/lru_cache.cc:403-415 | after a capacity change nothing that could be evicted keeps the shard over it |
| LruSpec.SetRatioInv | cache/lru_cache.cc:526-540 | changing a pool ratio keeps the invariant |
| LruSpec.EvictIsLeast | cache/lru_cache.cc:365-380 | eviction takes the shortest oldest-first prefix that makes room, or everything |
| LruShard.EvictFromLRU | cache/lru_cache.cc:365-380 | the loop over list, table and totals performs exactly that eviction, and returns the evicted handles in order |
| LruShard.EraseUnRefEntries | cache/lru_cache.cc:158-181 | empties the list, one entry after another |
| LruShard.Lookup | cache/lru_cache.cc:494-515 | the concrete shard refines the abstract lookup |
| LruShard.Release | cache/lru_cache.cc:542-599 | refines the abstract release; returns true exactly when the handle is gone |
| LruShard.Insert | cache/lru_cache.cc:423-492 | refines the abstract insertion on list, table, handles and totals; it is refused if and only if the charges off the list and the new one exceed the capacity and the limit is strict or no handle is wanted; a handle is returned exactly when one is wanted and the entry is in, and the status says which of the three outcomes it was |
| LruShard.Erase | cache/lru_cache.cc:681-709 | refines the abstract erasure: gone from the table, freed only when unreferenced |
| LruShard.CreateStandalone | cache/lru_cache.cc:642-679 | refines the abstract creation; null if and only if the limit is strict, the charges off the list and the new one exceed the capacity, and uncharged handles are not allowed |
| LruShard.SetCapacity | cache/lru_cache.cc:403-415 | refines the abstract capacity change |
| LruCache.LRUCacheShard.constructor | cache/lru_cache.cc:128-156 | an empty shard with the given limits satisfies the invariant |
| LruCache.LRUCacheShard.Insert | cache/lru_cache.cc:630-640 | the whole new state, the invariant kept; refused if and only if the charges off the list and the new one exceed the capacity and the limit is strict or no handle is wanted, and then null and not in; otherwise the key finds this handle with the given value, priority and charge, no other key is new, those that cannot be evicted stay, and the handle is returned exactly when wanted |
| LruCache.LRUCacheShard.Lookup | cache/lru_cache.cc:494-515 | a miss gives null and changes nothing; a hit gives the entry the directory names, with one more reference, marked as found and no longer waiting |
| LruCache.LRUCacheShard.Ref | cache/lru_cache.cc:517-524 | the whole new state, the invariant kept |
| LruCache.LRUCacheShard.Release | cache/lru_cache.cc:542-599 | null is ignored; otherwise the whole new state; freed if and only if it was the last reference and the entry has left the cache, the shard is over its capacity or the caller asks for it; an entry whose last reference goes otherwise waits |
| LruCache.LRUCacheShard.Erase | cache/lru_cache.cc:681-709 | the whole new state, the invariant kept; exactly this key leaves the directory |
| LruCache.LRUCacheShard.CreateStandalone | cache/lru_cache.cc:642-679 | the whole new state and the handle, the invariant kept; null, uncharged or charged by the same if-and-only-if on the charges off the list |
| LruCache.LRUCacheShard.SetCapacity | cache/lru_cache.cc:403-415 | the whole new state, the invariant kept |
| LruCache.LRUCacheShard.SetStrictCapacityLimit | cache/lru_cache.cc:417-421 | only the flag changes |
| LruCache.LRUCacheShard.SetHighPriorityPoolRatio | cache/lru_cache.cc:526-532 | the limit and the segments change, the order does not; both segments fit afterwards, the invariant is kept |
| LruCache.LRUCacheShard.SetLowPriorityPoolRatio | cache/lru_cache.cc:534-540 | the limit and the segments change, the order does not; both segments fit afterwards, the invariant is kept |
| LruCache.LRUCacheShard.EraseUnRefEntries | cache/lru_cache.cc:158-181 | the whole new state, the invariant kept |
| LruCache.LRUCacheShard.GetPinnedUsage | cache/lru_cache.cc:717-722 | the difference of two totals is the sum of the charges of the handles not on the list |
| LruMeaning.EvictLeaves | cache/lru_cache.cc:365-380 | eviction makes room if and only if what cannot be evicted leaves that much |
| LruMeaning.RefusedIff | cache/lru_cache.cc:435-436 | an insertion is refused if and only if the charges off the list and the new one exceed the capacity, and the limit is strict or no handle is wanted |
| LruMeaning.InsertMeans | cache/lru_cache.cc:423-492 | a refused entry is not in and everything evictable is gone; any other is what its key finds, as it was given, with every key that cannot be evicted still there |
| LruMeaning.EnqueuedHigh | cache/lru_cache.cc:288-303 | an entry with high priority, or found before, waits as the newest of all when there is a high segment, and in that segment if and only if it fits there by itself |
| LruMeaning.EnqueuedBelow | cache/lru_cache.cc:304-335 | any other entry is the newest of the low segment, when there is one and it has low priority or better or was found, or of the bottom segment |
| LruMeaning.LookupMeans | cache/lru_cache.cc:494-515 | a hit gains a reference and the mark, and leaves the line; nothing else changes |
| LruMeaning.ReleaseMeans | cache/lru_cache.cc:542-599 | when a release frees the handle, keeps it, or lets the entry wait, and what becomes of directory, list and usage |
| LruMeaning.FoundWaitsInHigh | cache/lru_cache.cc:494-599 | an entry that was looked up and released waits as the newest of all, in the high segment if and only if it fits there |
| LruMeaning.RatioMeans | cache/lru_cache.cc:526-540 | a new ratio gives its segment that share of the capacity; afterwards both segments fit their shares, and the order of all entries is as before |
| LruMeaning.EraseMeans | cache/lru_cache.cc:681-709 | exactly this key leaves the directory; its entry is freed if and only if nobody refers to it |
| LruMeaning.StandaloneMeans | cache/lru_cache.cc:642-679 | whether a standalone handle is refused, charged or uncharged, by the charges off the list; no key is new, and those that cannot be evicted stay |
| LruRuns.StepInv | cache/lru_cache.cc:423-709 | every operation of the shard keeps the one invariant |
| LruRuns.PinnedIsUnevictable | cache/lru_cache.cc:717-722 | usage splits into the charges on the list and the charges of all other handles |
| LruRuns.SetCapacityFitsIff | cache/lru_cache.cc:403-415 | the usage fits a new capacity afterwards if and only if the pinned charges fit it |
| LruRuns.StrictStep | cache/lru_cache.cc:423-492 | with a strict limit no operation takes the usage over capacity, unless it lowers the capacity below what is pinned or lifts the limit |
| LruRuns.StrictRun | cache/lru_cache.cc:423-492 | the same for every run from a shard within its capacity |
| LruRuns.StepKeepsHandles | cache/lru_cache.h:25-45 | one operation changes reference counts exactly as callers receive and give back handles, and frees nothing that is held |
| LruRuns.HeldHandlesLive | cache/lru_cache.h:25-45 | after every run, every handle still held exists, with exactly as many references as are held |
| LruRuns.HeldEntriesStay | cache/lru_cache.h:25-45 | a handle held throughout a run keeps its key and value, whatever was inserted, evicted or erased |
| LruWalk.CallCovers | cache/lru_cache.cc:183-222 | one call visits exactly the hashes between the old and the new cursor |
| LruWalk.CursorMoves | cache/lru_cache.cc:183-222 | with at least one bucket per call the cursor strictly grows |
| LruWalk.CursorStalls | cache/sharded_cache.h:222-223 | with none, which the minimum with 1 lets through, one call leaves the cursor where it is |
| LruWalk.WalkIsShort | cache/lru_cache.cc:183-222 | with at least one bucket per call every walk has at most 2^31 calls, whatever the table does |
| LruWalk.StalledWalk | cache/sharded_cache.h:221-237 | with none, the cursor of every walk stays at the start |
| LruWalk.WalkEndsIff | cache/sharded_cache.h:221-237 | a walk over any history of table sizes ends if and only if each call passes at least one bucket |
| LruWalk.StillAtBucket | cache/lru_cache.cc:183-222 | a cursor stays at the start of a bucket when the table doubles |
| LruWalk.AtMostOneCall | cache/lru_cache.cc:183-222 | a hash is covered by at most one call of a walk |
| LruWalk.ExactlyOneCall | cache/lru_cache.cc:183-222 | a finished walk covered every hash in exactly one call, however the table grew |
| LruWalk.ApplyToEntriesRange | cache/lru_cache.h:251-265 | visits exactly the entries of the buckets in range, each once |
| LruWalk.ApplyToSomeEntries | cache/lru_cache.cc:183-222 | visits exactly the entries with hashes between the two cursors, each once |
| LruTour.ApplyAll | cache/lru_cache.cc:48-126 | any sequence of operations on the table gives the handles and the directory these operations say, and never shrinks the table |
| LruTour.NeverTwice | cache/lru_cache.cc:183-222 | no key is visited twice, although entries are replaced under their keys, come and go, and the table grows between calls: visits to two handles with one key are the same visit |
| LruTour.StayingVisitedOnce | cache/lru_cache.cc:183-222 | a key that is in the table at every call of a finished walk is visited in exactly one call, through whatever handle it has then |
| LruTour.ApplyToAllEntries | cache/sharded_cache.h:212-238 | the rotation over the shards ends although any operations run on each table before each call, and gives every shard a finished walk over the contents these operations make |
| Coding.FixedRoundTrip | util/coding_lean.h:23-55 | a fixed-width number is read back, for every width |
| Coding.EncodeVarint32IsVarint | util/coding.cc:16-52 | the unrolled 32-bit encoder writes the same groups as the general loop |
| Coding.Varint32RoundTrip | util/coding.h:296-310 | a 32-bit number is read back and what follows is left alone |
| Coding.Varint64RoundTrip | util/coding.h:165-176 | the same for 64 bits |
| Coding.LengthPrefixedReads | util/coding.h:219-223 | reading back a slice gives its first bytes, as many as its length modulo 2^32 |
| Coding.LengthPrefixedRoundTrip | util/coding.h:344-357 | a slice is read back if and only if its length fits 32 bits |
| Coding.LongSliceIsLost | util/coding.h:219-223 | a slice of 2^32 bytes reads back as an empty one |
| BatchCodec.RecordRoundTrip | db/write_batch.cc:363-526 | a record of any kind is read back, and what follows left alone, if and only if its slices have 32-bit lengths |
| BatchCodec.ReadAllRoundTrip | db/write_batch.cc:363-526 | any list of records is read back in order |
| BatchCodec.PackRoundTrip | db/seqno_to_time_mapping.cc:621-652 | a packed value and write time are unpacked |
| BatchCodec.UnpackRoundTrip | db/seqno_to_time_mapping.cc:637-677 | packing again what was unpacked gives the same bytes |
| BatchIterate.Iterate | db/write_batch.cc:539-815 | the loop over an input slice, for every handler, every byte range and every input, ends; when the replay is defined it behaves as the recursive replay, with the statuses for bad ranges, corrupt records and wrong counts |
| BatchIterate.IterateAll | db/write_batch.cc:528-537 | the same for a whole batch; one without a header is corrupt |
| BatchIterate.DefinedIff | db/write_batch.cc:500-512 | a replay of any input to any handler is defined if and only if every timed put it reads has room for the time |
| BatchIterate.ReadsPrefix | db/write_batch.cc:566-600 | a replay reads the records of the input in order from the start |
| BatchIterate.ShortTimedPut | db/seqno_to_time_mapping.cc:637-652 | three bytes whose replay is not defined |
| BatchIterate.ReplayOfEncoded | db/write_batch.cc:539-815 | the bytes of a list of records replay as the list, to every handler |
| BatchIterate.AcceptedReplay | db/write_batch.cc:539-815 | a handler that accepts everything gets every record once, in order |
| BatchIterate.BatchReplays | db/write_batch.cc:539-815 | the count check passes if and only if the header counts the counted records modulo 2^32 |
| BatchIterate.OffersAreOrderly | db/write_batch.cc:566-600 | on every input, each record is offered at most twice, the second time only after a try-again, and counted at most once |
| BatchIterate.ToldEmptyIff | db/write_batch.cc:559-800 | in every replay of any input to any handler, an offer (of a no-op, or of anything) is told that the batch is empty if and only if nothing has been put into it since the last no-op, end of a section or end of a transaction |
| BatchIterate.ForeignRefused | db/write_batch.cc:673-737 | a handler of a write policy refuses a batch if and only if a section in it begins with the marker of another policy |
| BatchIterate.PutOffTwice | db/write_batch.cc:566-600 | a record that is put off twice is corruption, unless the handler stops |
| BatchState.Add | db/write_batch_internal.h:256-299 | a record is appended with count, flag and checksum; when the batch gets too large every field is as before, if and only if the checksum entries are fewer than 2^32 |
| BatchState.AddMarker | db/write_batch.cc:1309-1317 | a marker is appended whatever the limit, and is not counted |
| BatchState.CutRepresents | db/write_batch.cc:2058-2093 | cutting back to a save point gives exactly the records up to it, bytes, count, flags and checksums, if and only if their checksum entries are fewer than 2^32 |
| BatchState.RolledStacked | db/write_batch.cc:2058-2093 | the save points below a rollback stay right |
| BatchState.JoinRepresents | db/write_batch.cc:3899-3956 | appending a batch, or its first part, is concatenation of records in bytes, count, flags and checksums |
| BatchState.JoinIff | db/write_batch.cc:3899-3956 | what is appended up to a point are the records there were at that point if, and for records with 32-bit lengths only if, the batch still begins with them |
| BatchState.StripChecks | db/kv_checksum.h:302-470 | removing a record's parts from a checksum leaves zero if and only if the checksum is that record's; what that depends on is `OnePartTells` |
| BatchState.VerifyChecksum | db/write_batch.cc:2121-2223 | on every batch, passes if and only if the entries, as many as the header counts, are those of records the bytes begin with, and these are all entries or all bytes there are |
| BatchState.ChecksIff | db/write_batch.cc:2121-2223 | the same of the recursive check, which the loop computes |
| BatchState.TailIsNotChecked | db/write_batch.cc:2135-2137 | bytes behind the last record with an entry are never looked at |
| BatchState.BuiltBatchVerifies | db/write_batch.cc:2121-2223 | a batch built by the append operations passes its checksums if and only if these are fewer than 2^32 |
| BatchState.RebuiltEntriesAgree | db/write_batch.cc:3775-3885 | rebuilding the entries by replay gives the entries built on appending |
| BatchState.BuiltBatchReplays | db/write_batch.cc:539-815 | a batch built by the append operations replays all its records, in order, and its count is right |
| BatchIntegrity.FlagSetIff | db/write_batch.cc:42-125 | a flag of a built batch is set if and only if a record of that kind is in it |
| BatchIntegrity.OnePartTells | db/kv_checksum.h:302-470 | when only the key, the value, the operation or the column family of a record is changed, its checksum stays the same if and only if the hasher agrees on that part before and after |
| BatchIntegrity.CheckedIff | db/write_batch.cc:2121-2223 | as many entries as records with one pass over the bytes of these records if and only if they are theirs |
| BatchIntegrity.ChangeShowsIff | db/write_batch.cc:2121-2223 | the entries of a batch over its bytes with one part of one record changed pass the check if and only if the hasher agrees on that part before and after |
| WriteBatch.AcceptedTimedPutFitsIff | db/write_batch.cc:951-999 | an accepted timed put reads back if and only if its packed value fits 32 bits too |
| WriteBatch.LongTimedPutIsLost | db/write_batch.cc:951-999 | a value of the largest length is accepted with a time and does not read back |
| WriteBatch.RewriteNoop | db/write_batch.cc:1319-1348 | overwriting the first byte turns the leading no-op into a begin marker and changes no other record, count or checksum |
| WriteBatch.OwnMark | db/write_batch.cc:1288-1295 | the marker that a write policy writes is one that its handlers take |
| WriteBatch.WriteBatch.constructor | db/write_batch.cc:134-151 | an empty batch |
| WriteBatch.WriteBatch.Append | db/write_batch.cc:1384-1412 | one more record, or nothing changes when the batch would get too large, if and only if the checksum entries are fewer than 2^32 |
| WriteBatch.WriteBatch.Put | db/write_batch.cc:908-949 | one more put; refused if and only if key or value does not fit 32 bits; on refusal nothing changes, on a full batch as for Append |
| WriteBatch.WriteBatch.TimedPut | db/write_batch.cc:951-999 | at the largest time a put, otherwise a put of the packed value |
| WriteBatch.WriteBatch.PutParts | db/write_batch.cc:1107-1141 | the put of the concatenations; refuses lengths from 2^32 - 1 on |
| WriteBatch.WriteBatch.AppendMarker | db/write_batch.cc:1350-1358 | one more marker whatever the limit, not counted |
| WriteBatch.WriteBatch.MarkEndPrepare | db/write_batch.cc:1319-1348 | the records become one prepared section, begun with the marker of the write policy; save points are forgotten; a termination point behind the first record no longer matches |
| WriteBatch.WriteBatch.SetSavePoint | db/write_batch.cc:2047-2056 | remembers the number of records; changes nothing else |
| WriteBatch.WriteBatch.RollbackToSavePoint | db/write_batch.cc:2058-2093 | the records, count, flags and checksums of the last save point return, under any nesting, if and only if there is nothing to undo or the entries that stay are fewer than 2^32; the records at the termination point stay where the batch begins if and only if the rollback does not go behind it; not found without a save point |
| WriteBatch.WriteBatch.PopSavePoint | db/write_batch.cc:2095-2106 | forgets the last save point and keeps the records |
| WriteBatch.WriteBatch.Clear | db/write_batch.cc:221-242 | an empty batch with the same limit and protection |
| WriteBatch.WriteBatch.MarkWalTerminationPoint | db/write_batch.cc:265-270 | remembers the records so far |
| WriteBatch.WriteBatch.AppendBatch | db/write_batch.cc:3899-3956 | refused when the entries outnumber what the header counts; otherwise the records of both batches, for the log only those up to the termination point, if and only if the other batch still begins with these |
| WriteBatch.LostTermination | db/write_batch.cc:2058-2093 | a run with a rollback behind the termination point, after which an append for the log takes the bytes of another record under the old count and flags |
| WriteBatch.SmallPuts | db/write_batch.cc:908-949 | two puts for which there is such a run |
| WriteBatch.WriteBatch.VerifyChecksum | db/write_batch.cc:2121-2223 | on a batch these operations built from slices with 32-bit lengths, passes if and only if there are no entries or fewer than 2^32 |
| BatchRecovery.ReplayIsRun | db/write_batch.cc:539-815 | replay to the memtable inserter applies record after record and stops at the first refusal |
| BatchRecovery.CaughtStep | db/write_batch.cc:3402-3547 | one record of a log keeps the inserter exactly where the definition of committed work says |
| BatchRecovery.StepOkIff | db/write_batch.cc:2458-2504 | a record is refused if and only if the configuration does not support it |
| BatchRecovery.CaughtRun | db/write_batch.cc:3402-3547 | a batch replays to its end if and only if all of it is supported, and then leaves the inserter where it should be |
| BatchRecovery.RecoverBatch | db/write_batch.cc:3746-3773 | the same from bytes, with the batch's own sequence number |
| BatchRecovery.Recover | db/write_batch.cc:3402-3547 | recovery of every bracketed log succeeds if and only if everything is supported; then the memtables hold each operation outside transactions once and each prepared section once, at its commit, in commit order, with the sequence numbers of the batch that brought it and the log of its section, nothing rolled back, and the sections still prepared are exactly the recovered transactions |
| BatchRecovery.RecordRecoveredIff | db/write_batch.cc:2458-2504 | of the records an event brings, recovery inserts a record if and only if its family exists, its log number is at most that of the event's log, and it is no range deletion whose ends compare equal; in order, each with its own number and the log of its section |
| BatchRecovery.RebuiltBatchReplays | db/write_batch.cc:3485-3540 | replaying the bytes of a rebuilt section at its commit applies its records one after the other |
| BatchRecovery.EndedStaysEnded | db/write_batch.cc:3630-3655 | a committed or rolled back transaction is not applied again unless prepared again |
| BatchRecovery.StepNumbers | db/write_batch.cc:2427-2433 | a counted record uses one sequence number, an empty range deletion none |
| BatchRecovery.RunNumbers | db/write_batch.cc:2427-2433 | in ordinary writes every record that reaches a memtable has a number of its own, in order |
| BatchRecovery.RunOkIff | db/write_batch.cc:2458-2504 | an ordinary write succeeds if and only if every data record is taken |
| BatchRecovery.RunPlaces | db/write_batch.cc:2506-2600 | it adds to the memtables exactly what its data records place there |
| BatchRecovery.InsertInto | db/write_batch.cc:3676-3713 | a group succeeds if and only if every data record of every writer that takes part is taken; the writers then get consecutive, disjoint ranges of numbers, and the memtables gain exactly what their records place there, each insert with its writer's log |
| SkipList.FindLessThan | memtable/skiplist.h:307-343 | the last key below the given one, and the predecessors on all levels, although comparisons are skipped |
| SkipList.FindGreaterOrEqual | memtable/skiplist.h:267-304 | the first key not below the given one, or null |
| SkipList.FindLast | memtable/skiplist.h:346-371 | the last node, or the head of an empty list |
| SkipList.Contains | memtable/skiplist.h:518-529 | true if and only if the key is in the list |
| SkipList.FastPrev | memtable/skiplist.h:458-482 | the fast path fills in the same predecessors, on all levels, as the search would find |
| SkipList.FastIff | memtable/skiplist.h:458-482 | the fast path is taken if and only if the key belongs right behind the one inserted last |
| SkipList.Splice | memtable/skiplist.h:505-512 | the new node is linked in on exactly the levels below its height |
| SkipList.Insert | memtable/skiplist.h:458-515 | for every height, exactly the new key is added, in order; every level stays a sorted sublist of the one below, and the remembered predecessors are right for the next call |
| SkipList.ApproximateNumEntries | memtable/skiplist.h:374-426 | exact whenever fewer than ten keys are in the range; always the number of keys of the range on the highest level with enough samples (ten, and the branching factor for each level below the next one), or on the bottom level, times the branching factor for each level below |
| SkipList.InRangeIs | memtable/skiplist.h:374-426 | the keys of a range are those between the predecessors of its ends |
| SkipList.Prev | memtable/skiplist.h:194-204 | the node before the given one, or null before the first |
| SkipList.SeekForPrev | memtable/skiplist.h:213-225 | the last key not above the target, or null |
| SkipList.Walk | memtable/skiplist.h:187-191 | following a level visits exactly the nodes taller than it, in key order |
| SkipList.LevelIsSublist | memtable/skiplist.h:458-515 | each level is a sublist of the one below |
| MemTableList.SortedList.constructor | memtable/skiplist.h:429-455 | an empty list |
| MemTableList.SortedList.Insert | memtable/skiplist.h:458-515 | the keys with the new one added, still strictly sorted |
| MemTableList.SortedList.Contains | memtable/skiplist.h:518-529 | membership in the keys |
| SeqnoToTimeSpec.SortAndMergeKeepsBest | db/seqno_to_time_mapping.cc:320-346 | sorting and merging any list of samples changes the answer to no query by time |
| SeqnoToTimeSpec.MergeAllSeqnos | db/seqno_to_time_mapping.cc:284-318 | merged samples have strictly increasing sequence numbers |
| SeqnoToTimeSpec.MergedTimesIncreaseIff | db/seqno_to_time_mapping.cc:284-346 | merged samples are in time order if and only if no reading falls back to or below an earlier one after only later readings in between |
| SeqnoToTimeSpec.MergedTimesMayRegress | db/seqno_to_time_mapping.cc:284-346 | a witness that comes out in the wrong order |
| SeqnoToTimeThinning.VictimIsBest | db/seqno_to_time_mapping.cc:143-282 | the sample to remove has the least gap between its neighbours, then the least sequence number |
| SeqnoToTimeThinning.VictimUnique | db/seqno_to_time_mapping.cc:143-282 | there is one such sample |
| SeqnoToTimeThinning.GapOnlyGrows | db/seqno_to_time_mapping.cc:143-282 | removing a sample shrinks no other gap while times do not regress, so stale gaps are too small, never too large |
| SeqnoToTimeThinning.VictimLosesLeast | db/seqno_to_time_mapping.cc:171-230 | in time order, the times on both sides of the sample to remove are no further apart than those of any other interior sample, and on a tie its sequence number is the least |
| SeqnoToTimeThinning.GreedyThins | db/seqno_to_time_mapping.cc:143-282 | so is every sample that repeated removal takes out, of those left at that moment |
| SeqnoToTimeReducer.FreshTopIsVictim | db/seqno_to_time_mapping.cc:143-282 | an up-to-date candidate on top of a queue with stale ones is the greedy choice |
| SeqnoToTimeReducer.MarkRemovals | db/seqno_to_time_mapping.cc:143-282 | the loop with the stale queue ends, never runs dry, removes as many samples as asked, and keeps the first and the last; when times do not regress it equals naive greedy, and each sample removed had its neighbours closest in time, then the least sequence number |
| SeqnoToTimeReducer.Collapse | db/seqno_to_time_mapping.cc:143-282 | moving the marked list together leaves exactly the live samples, in order |
| SeqnoToTimeMapping.PrunedKeepsBest | db/seqno_to_time_mapping.cc:108-141 | pruning by time span changes no answer at or after the cutoff |
| SeqnoToTimeMapping.WithinSpanMeans | db/seqno_to_time_mapping.cc:108-141 | pruning drops a prefix, each sample of it with a successor no later than the latest time minus the span; of the first two samples that stay one is later |
| SeqnoToTimeMapping.EffectiveCapIs | db/seqno_to_time_mapping.cc:146-164 | the limits computed with wrap-around are: at least two, and an eighth more unless strict, at most 2^64 - 1 |
| SeqnoToTimeMapping.CapacityBounds | db/seqno_to_time_mapping.cc:143-282 | with m the larger of capacity and 2, a strict enforcement leaves at most m samples and any other at most m and an eighth; a list within that bound is unchanged; in time order only samples whose neighbours are closest go |
| SeqnoToTimeMapping.FewerSamplesAnswerOlder | db/seqno_to_time_mapping.cc:143-282 | thinning never makes an answer newer |
| SeqnoToTimeMapping.ThinningKeepsSpan | db/seqno_to_time_mapping.cc:143-282 | thinning keeps what pruning established |
| SeqnoToTimeMapping.UpperBoundPartitions | db/seqno_to_time_mapping.cc:17-23 | in time order, binary search splits the samples at the query time |
| SeqnoToTimeMapping.LastNoLaterIsBest | db/seqno_to_time_mapping.cc:57-72 | the sample before the split is the best answer |
| SeqnoToTimeMapping.SearchRightIff | db/seqno_to_time_mapping.cc:57-72 | on samples in any order of times, the search never answers too new, and answers best if and only if no probe later than the query hides a sample that is not |
| SeqnoToTimeMapping.EveryTimeRightIff | db/seqno_to_time_mapping.cc:57-72 | every query by time is answered right if and only if, at each midpoint of the search tree, no sample behind it is earlier than a time that reaches it and turns away |
| SeqnoToTimeMapping.SearchMayMiss | db/seqno_to_time_mapping.cc:57-72 | a merged list and a query that the search misses |
| SeqnoToTimeMapping.AppendedKeepsBest | db/seqno_to_time_mapping.cc:522-585 | appending merges nothing away that a query by time could see |
| SeqnoToTimeMapping.AppendedTimesIncreaseIff | db/seqno_to_time_mapping.cc:522-585 | a list in time order stays so if and only if the new time is past the last but one |
| SeqnoToTimeMapping.DecodeRoundTrip | db/seqno_to_time_mapping.cc:401-477 | any list of samples comes back from its delta encoding, differences modulo 2^64 |
| SeqnoToTimeMapping.MergeSorted | db/seqno_to_time_mapping.cc:320-346 | the loop with a read and a write position in one list merges as the recursive definition |
| SeqnoToTimeMapping.SeqnoToTimeMapping.AddUnenforced | db/seqno_to_time_mapping.cc:384-392 | one more sample; sequence number 0 is ignored |
| SeqnoToTimeMapping.SeqnoToTimeMapping.SortAndMerge | db/seqno_to_time_mapping.cc:320-346 | the samples sorted and merged, and the documented enforced state |
| SeqnoToTimeMapping.SeqnoToTimeMapping.EnforceMaxTimeSpan | db/seqno_to_time_mapping.cc:108-141 | the samples pruned to the span: no sample goes whose successor is later than the latest time minus the span |
| SeqnoToTimeMapping.SeqnoToTimeMapping.EnforceCapacity | db/seqno_to_time_mapping.cc:143-282 | a list within the bound is unchanged; any other is thinned to the capacity, at least two, first and last kept, in time order by the cheapest removals; capacity 0 clears it |
| SeqnoToTimeMapping.SeqnoToTimeMapping.Enforce | db/seqno_to_time_mapping.cc:368-382 | sorted, pruned and thinned, in that order |
| SeqnoToTimeMapping.SeqnoToTimeMapping.Append | db/seqno_to_time_mapping.cc:522-585 | the whole new state, and whether a sample was added |
| SeqnoToTimeMapping.SeqnoToTimeMapping.SetMaxTimeSpan | db/seqno_to_time_mapping.cc:348-356 | the new span, enforced at once on enforced samples |
| SeqnoToTimeMapping.SeqnoToTimeMapping.SetCapacity | db/seqno_to_time_mapping.cc:358-366 | the new capacity, enforced at once on enforced samples |
| SeqnoToTimeMapping.SeqnoToTimeMapping.GetProximalSeqnoBeforeTime | db/seqno_to_time_mapping.cc:57-72 | the best answer in time order; in any order never too new, and best if and only if not misled |
| SeqnoToTimeMapping.SeqnoToTimeMapping.GetProximalTimeBeforeSeqno | db/seqno_to_time_mapping.cc:41-55 | the time of the last sample strictly before the sequence number, 0 if none |
| SeqnoToTimeMapping.SeqnoToTimeMapping.DecodeFrom | db/seqno_to_time_mapping.cc:460-477 | the decoded samples are added, or nothing changes when the input is corrupt; the documented order holds afterwards if and only if the mapping is no longer taken to be enforced or the decoded samples are in order |
| SeqnoToTimeMapping.DecodedOutOfOrder | db/seqno_to_time_mapping.cc:460-477 | an input that leaves an enforced mapping out of order |
| SeqnoToTimeMapping.Copied | db/seqno_to_time_mapping.cc:401-477 | the encoding of an enforced mapping decodes, in a new mapping, to a valid one with the same samples |
| Reservation.NeedIff | cache/cache_reservation_manager.cc:118-159 | the loops that add and drop dummy entries stop exactly when the entries cover the memory, exact to one entry |
| Reservation.CacheReservationManager.IncreaseCacheReservation | cache/cache_reservation_manager.cc:118-136 | entries up to the need, or up to where the cache refuses |
| Reservation.CacheReservationManager.DecreaseCacheReservation | cache/cache_reservation_manager.cc:139-158 | entries down to the need |
| Reservation.CacheReservationManager.UpdateCacheReservation | cache/cache_reservation_manager.cc:53-89 | the entries settle at the need; giving back is put off exactly when that is allowed and at least three quarters of the reservation are used, and then nothing changes; otherwise, on success, the cover is exact to one entry |
| Reservation.CacheReservationManager.UpdateBy | cache/cache_reservation_manager.h:273-292 | the relative form, which stops at zero and settles at the same number of entries |
| Reservation.DelayIsBounded | cache/cache_reservation_manager.cc:53-89 | with delayed decrease at most a third more than the memory in use stays reserved |
| Reservation.ShareBounds | cache/secondary_cache_adapter.cc:94-110 | the share of the secondary cache stays within its capacity, and is zero for nothing reserved |
| Reservation.ShareMonotone | cache/secondary_cache_adapter.cc:262-297 | more reserved, no smaller share, so the difference does not wrap |
| Reservation.InsertPlaceholder | cache/secondary_cache_adapter.cc:262-297 | the placeholders grow by the charge; within the capacity less than a chunk of them is not reserved afterwards, and nothing new is reserved over it or for less than a chunk; every insertion keeps: reserved a multiple of the chunk, at most placeholders and capacity, the share the floor of reserved times ratio, the primary reservation the secondary capacity minus the share |
| Reservation.ReleasePlaceholder | cache/secondary_cache_adapter.cc:341-375 | the placeholders shrink by the charge; reserved becomes the largest multiple of the chunk not above them exactly when they are within the capacity and below what is reserved, and stays otherwise; the same invariant, and no subtraction wraps |
| Reservation.AllReleased | cache/secondary_cache_adapter.cc:114-130 | with all placeholders released the destructor's checks hold |
| Reservation.Run | cache/secondary_cache_adapter.cc:262-375 | any run of insertions and releases from a fresh adapter keeps all this; while the placeholders fit the capacity less than a chunk of them is not reserved |
| Reservation.ReservedLags | cache/secondary_cache_adapter.cc:262-375 | a run over the capacity and back that leaves 61 chunks of placeholders unreserved |
| PrepTracker.MarkLogAsContainingPrepSection | db/logs_with_prep_tracker.cc:22-43 | the search from the newest log counts the section at its place in the sorted list |
| PrepTracker.MarkLogAsHavingPrepSectionFlushed | db/logs_with_prep_tracker.cc:7-20 | counts one more completed section of this log and no other |
| PrepTracker.NextInv | db/logs_with_prep_tracker.cc:7-68 | every step of every thread keeps counters and list in balance |
| PrepTracker.AnswerIsLeast | db/logs_with_prep_tracker.cc:45-68 | a search that ends names the least log with outstanding sections at its last look, or 0 if there is none, whatever completions came in between |
| PrepTracker.ErasedIsDone | db/logs_with_prep_tracker.cc:45-68 | a log that is erased has nothing outstanding |
| PrepTracker.RunInv | db/logs_with_prep_tracker.cc:7-68 | every interleaving keeps the balance |
| PrepTracker.EverySearchIsRight | db/logs_with_prep_tracker.cc:45-68 | in every run from an empty tracker every search that ends is right, and the list is strictly sorted |
| PrepTracker.FindMinLogContainingOutstandingPrep | db/logs_with_prep_tracker.cc:45-68 | the loop without interference finds the least outstanding log |
| Arena.OptimizeBlockSize | memory/arena.cc:13-26 | a block size in range, aligned, and less than one unit above the wish |
| Arena.FreshInv | memory/arena.cc:28-50 | a new arena with its inline block satisfies the invariant |
| Arena.ServedKeeps | memory/arena.cc:61-155 | every request is answered with a new region inside a block, apart from all handed out before and from the gap, as long as asked for and aligned if asked for; the gap is exactly the bytes left |
| Arena.Allocate | memory/arena.h:97-110 | the steps from the back of the active block, or in a new block, do that |
| Arena.AllocateAligned | memory/arena.cc:113-155 | the steps from the front, at an aligned address, or in a new block, do that |
| Arena.RunFromStart | memory/arena.cc:28-155 | any run of requests of both kinds from a new arena: all regions inside blocks, pairwise apart, as long as asked for, aligned where asked for, and apart from what is left; the memory counted is the total length of the blocks, and every block of unusual size is counted as irregular |
| ConcurrentArena.Amount | memory/concurrent_arena.h:53-67 | aligned requests become whole words, less than one word more |
| ConcurrentArena.RefillSize | memory/concurrent_arena.h:189-196 | a refill takes all that is left in the arena whenever that is at least half a shard block and less than two, and is always within these bounds |
| ConcurrentArena.StartShared | memory/concurrent_arena.h:93-101 | a new arena with empty shards satisfies the invariant |
| ConcurrentArena.NextShared | memory/concurrent_arena.h:134-224 | every step of every thread under a lock keeps all regions and shards apart, inside what the arena gave out, and the cached counter right |
| ConcurrentArena.RunShared | memory/concurrent_arena.h:134-224 | so does every interleaving of steps |
| ConcurrentArena.EveryRegionApart | memory/concurrent_arena.h:134-224 | in every interleaving of any number of threads from a new arena all regions ever returned are inside blocks, pairwise apart, as long as asked for and word-aligned where alignment was asked for, on the arena's unit where the arena served them; the counter agrees with the arena |
| ConcurrentArena.AllocateImpl | memory/concurrent_arena.h:134-214 | one request without interruption is a run of these steps and returns one new region; a shard serves it if and only if it is at most a quarter of a shard block, not forced to the arena, not (arena lock free and first shard empty), and the shard has enough or the arena has left its inline block or lacks the room |
| ConcurrentArena.CarvedAlignedIff | memory/concurrent_arena.h:199-214 | an aligned request served by a shard is on the arena's unit if and only if the bytes cut from the front of the shard since its last refill are a multiple of it |
| ConcurrentArena.ShardAlignmentIsWeaker | memory/concurrent_arena.h:134-214 | a run from a new arena in which a shard serves an aligned request off the arena's unit |
| KeyParts.StripPad | db/dbformat.h:686-742 | stripping the timestamp undoes padding it |
| KeyParts.PadStripIff | db/dbformat.h:686-742 | padding gives back a stripped key if and only if its timestamp was eight zero bytes |
| KeyParts.PadSplits | db/dbformat.h:719-737 | padding three pieces splits the one the footer begins in, whichever it is |
| KeyParts.ThreeParts | db/dbformat.h:1020-1041 | the pieces added one by one, five in all, make the padded key, with the timestamp added exactly once |
| KeyParts.PartsAre | db/dbformat.h:689-742 | for every previous key, shared length and new bytes the pieces make the padded key of the shared part of the stripped one and the new bytes |
| IterKey.IterKey.CopyParts | db/dbformat.h:935-971 | copying the pieces to the other buffer overwrites none of the bytes still to be copied |
| IterKey.IterKey.SetParts | db/dbformat.h:935-971 | the key is the pieces put together, in the buffer that did not hold it, which is replaced only when too small; the other buffer is untouched |
| IterKey.IterKey.TrimAppendWithTimestamp | db/dbformat.h:689-742 | the new key is the padded one, and stripped it is the shared bytes and the new ones |
| IterKey.IterKey.SetKeyWithPaddedMinTimestamp | db/dbformat.h:744-766 | the new key is the given one padded |
| IterKey.IterKey.TrimAppend | db/dbformat.h:653-684 | the bytes in front of the new ones, and exactly when they are the shared ones; the buffer is replaced only when too small |
| IterKey.MixedKeyIsLost | db/dbformat.h:653-684 | a run of calls after which the key begins with a byte left over in the first buffer |

## Left out

- Update in place below the level of an object: list, table and handle maps of a shard, nodes of the skip list, the tracker, the adapter and the arenas are values that methods take and return, so aliasing between two such objects is not captured. The buffers of the iterator key are arrays.
- Concurrency inside a shard of the LRU cache: every operation runs under the shard's lock and is one step.
- Freeing after unlocking: evicted and erased handles leave the model's memory inside the step, where the source collects them and frees them after the lock is released; the eviction callback is not modelled.
- The order of two updates in insertion: the list total is brought up to date before segments are trimmed, the source does it after; trimming neither reads nor changes it.
- Handle storage: a handle enters the model's memory where it is first linked or counted, not when `CreateHandle` allocates it.
- Pool usage within pool capacity as an invariant of the shard: a capacity change does not trim the segments, so it is stated as what trimming achieves.
- Negative or undefined pool ratios: the model takes ratios from 0 on, as the option checks ensure.
- LruCache.LRUCacheShard.Release: the statistics argument is dropped; `Ref`, `Release` and friends require a handle the caller holds, as the source asserts.
- LruWalk.ApplyToSomeEntries: requires at least one entry per lock, as the source asserts.
- LruTour.ApplyToAllEntries: requires at least one entry per lock; with 0 the rotation does not end, which is `WalkEndsIff`.
- Shard choice by hash, statistics, printing and option parsing of the caches: easy members.
- WriteBatch.WriteBatch.Append: stands for Delete, SingleDelete, DeleteRange, Merge and PutBlobIndex with their own records; the length check of Merge is that of `Put` and is not repeated.
- WriteBatch.WriteBatch.AppendBatch: requires that the bytes and entries to take exist, and with entries fewer than 2^31 of them, since the source adds a signed number to a pointer; the same protection on both sides unless the header counts nothing, as the source asserts; and another batch than the one appended to.
- Wide-column entities are records of opaque bytes; their serialization, user timestamps in batches, UpdateTimestamps and MarkCommitWithTimestamp are not modelled: their helpers are not part of the repository.
- Content flags cached as deferred are always computed; the flag for unprepared sections is left out, which the source sets when a section is closed but not when one is begun.
- Checksums of fewer than eight bytes and SetContents: easy members.
- BatchRecovery.Recover: the write-committed policy only; write-prepared and write-unprepared recovery need a duplicate detector that is not part of the repository.
- BatchRecovery.RunNumbers: numbers are unbounded, and one per key; the policy of one per batch is not modelled.
- Memtables are lists of what was inserted; updates in place, merges at write time, flush scheduling and concurrent memtable writes are not modelled.
- SkipList.ApproximateNumEntries: says what is extrapolated, not how close that is for random heights; the extrapolation is stated for branching factors above zero, which the source asserts.
- Skip list keys are integers in their order, standing for any total order; concurrent readers and memory ordering are not modelled.
- SeqnoToTimeReducer.MarkRemovals: equality with greedy is stated for times that do not regress; for others, that the number of samples, the first and the last are right. Which samples go then depends on stale gaps modulo 2^64.
- SeqnoToTimeReducer.MarkRemovals: requires times other than 0, which the source uses as its mark for removed samples.
- Copying a range of samples, prepopulation and tiering cutoffs: easy members.
- The secondary cache itself, tiered caches, and capacity or ratio changes of the adapter, where accumulated rounding is documented in the source.
- Reservation.CacheReservationManager.UpdateCacheReservation: when the cache refuses an entry is a limit on their number, given per call.
- Reservation.Run: one run interleaves whole insertions and releases, each under the adapter's lock.
- Huge pages, allocation trackers and the memory statistics of the arenas.
- ConcurrentArena.AllocateImpl: which shard a thread picks and whether a lock can be had at once are choices of the caller; requests of no bytes are not modelled.
- BatchIterate.Iterate: says nothing about a replay that is not defined except that it is not.
- PrepTracker.FindMinLogContainingOutstandingPrep: without interference; the interleaved search is `EverySearchIsRight`.
- IterKey.IterKey.TrimAppendWithTimestamp: requires a previous key long enough for what is shared, and a footer in the new key, as the source asserts.
- Keys copied from a slice of the iterator key itself, and the other setters of the iterator key: easy members.
- Declarations without bodies (memtable, version set, column families, table cache, files), log edits, JSON, event and log buffers, cache keys: no hard property can be stated about what is there.
