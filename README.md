# Imhotep shard table, multi-session fan-out, worker streams and B-tree integers

This project models four pieces of the Imhotep query engine and proves what
each promises.

- **`MultiCache`** (module `MultiCache`, with the specification functions in
  `MultiCacheSpec`) is the per-shard table of document groups and packed metric
  columns.
  - The native packed table is represented by its contents: `groups`, the group
    of every document, and `metrics`, one column per packed statistic.
  - Native allocation and destruction go through a `NativeHeap` that records
    the live tables and every destroy call.
  - The model covers the build-time copy schedules (groups in blocks of 8192,
    metric values in chunks of 4096 with a tail chunk), the inverse column
    order passed to the native build, and the close protocol of the metric
    lookups.
  - It also covers the group lookup: the in-place compaction in
    `nextGroupCallback`, the regroup step of the `apply*ConditionsCallback`
    pair with its persistent remap buffer, and the chunked, size-checked
    `copyInto`.
- **`RemoteImhotepMultiSession`** (module `RemoteMultiSession`) covers the
  client side of a multi-server session.
  - The FTGS iterator is described by its shape: one session's own iterator,
    an interleaver of splits, and the term-limited and top-terms wrappers.
  - The fan-out to the sessions is described by which sessions answered.
  - It also models the regroup maximum, the temp-file byte count in `long`
    arithmetic, and the null-skipping combination of performance stats.
- **`local_session.c`** (module `LocalSession`) models the worker's output
  streams and the error state machine of `run_tgs_pass`, `worker_start_field`,
  `worker_end_field`, `worker_end_stream`, `worker_init` and `session_init`.
  - Each write or pass is an abstract call, given as its return value and the
    socket error it leaves on the stream.
- **`btree/int.hpp`** (module `BtreeInt`, with decimal printing in `Decimal`)
  models `Int<int_t>` as a view of a byte buffer.
  - `Long` is an 8-byte little-endian two's-complement integer.
  - `LongPair` is two of them, compared lexicographically as `std::pair` is.
  - Both come with their comparison operators, `length`/`begin`/`end` and
    their printed forms.

`Wrappers` holds the `Option` and `Result` types, and `FixedWidth` the signed 64-bit range of Java's `long` and C++'s `int64_t`.

## Model

M = `imhotep-server/src/main/java/com/indeed/imhotep/local/MultiCache.java`,
R = `imhotep-client/src/main/java/com/indeed/imhotep/RemoteImhotepMultiSession.java`,
L = `imhotep-server/src/main/native/optimized_ftgs/optimized/src/local_session.c`,
I = `imhotep-server/src/main/native/optimized_ftgs/cpp/include/btree/int.hpp`
(the table cells spell the paths out).

| member | source | states |
|---|---|---|
| MultiCacheSpec.ChunksPartition | imhotep-server/src/main/java/com/indeed/imhotep/local/MultiCache.java:99-113 | the chunks from `from` are contiguous (chunk k starts at from + k·size), each holds 1..size documents, the last ends at n, and every document of [from, n) is in exactly one chunk while no other document is in any |
| MultiCacheSpec.MetricScheduleExactlyOnce | imhotep-server/src/main/java/com/indeed/imhotep/local/MultiCache.java:98-113 | the constructor's metric copy calls copy each document of each column exactly once, and no document outside the shard or column outside the statistics |
| MultiCacheSpec.ScheduleCallsCover | imhotep-server/src/main/java/com/indeed/imhotep/local/MultiCache.java:99-113 | a schedule of chunks covers (column, document) as often as the chunks cover the document, for every column that exists |
| MultiCacheSpec.Range | imhotep-server/src/main/java/com/indeed/imhotep/local/MultiCache.java:150-152 | the id buffer of a chunk is start, start+1, …, start+count-1 |
| MultiCacheSpec.GatherRange | imhotep-server/src/main/java/com/indeed/imhotep/local/MultiCache.java:149-154 | looking up the ids start..start+count-1 yields exactly that slice of the source column |
| MultiCacheSpec.KeptIndicesSorted | imhotep-server/src/main/java/com/indeed/imhotep/local/MultiCache.java:309-319 | the positions kept by the compaction are in range and strictly increasing, so the original relative order is preserved |
| MultiCacheSpec.KeptIndicesExact | imhotep-server/src/main/java/com/indeed/imhotep/local/MultiCache.java:309-319 | a position is kept if and only if its group is nonzero |
| MultiCacheSpec.KeptIndicesCount | imhotep-server/src/main/java/com/indeed/imhotep/local/MultiCache.java:309-319 | the number of kept positions is the number of nonzero groups, and at most the number read |
| MultiCacheSpec.KeptGroupsNonzero | imhotep-server/src/main/java/com/indeed/imhotep/local/MultiCache.java:310-316 | no kept group is 0 |
| MultiCacheSpec.KeptIndicesExtend | imhotep-server/src/main/java/com/indeed/imhotep/local/MultiCache.java:309-318 | one more step of the loop appends position i exactly when its group is nonzero, and every earlier kept position is below i (the write head never passes the read position) |
| MultiCacheSpec.RemapStepFrame | imhotep-server/src/main/java/com/indeed/imhotep/local/MultiCache.java:351-370 | markers are only ever set, never cleared; a document not read keeps its marker; remap slots past n, slots of documents already marked, and slots whose rule does not fire keep what an earlier call left there |
| MultiCacheSpec.RemapStepAt | imhotep-server/src/main/java/com/indeed/imhotep/local/MultiCache.java:351-370 | for distinct documents: a document ends marked iff it was marked or its group's rule exists and its condition fails; its slot gets the rule's positive group iff that happened to an unmarked document, and otherwise keeps its old contents |
| MultiCacheSpec.ApplyUpdatesAt | imhotep-server/src/main/java/com/indeed/imhotep/local/MultiCache.java:428-430 | writing groups back for distinct documents gives each listed document its value and leaves every other document's group unchanged |
| MultiCacheSpec.StaleRemapSlotIsWrittenBack | imhotep-server/src/main/java/com/indeed/imhotep/local/MultiCache.java:351-375 | as written, document 0 in group 1 with no rule for group 1 and a zero remap slot is moved to group 0 by the write-back |
| MultiCacheSpec.IntendedRemapKeepsSkipped | imhotep-server/src/main/java/com/indeed/imhotep/local/MultiCache.java:351-375 | with the remap buffer seeded with the current groups, the write-back moves exactly the unmarked documents whose rule fires to the positive group and leaves every other document where it was |
| MultiCacheSpec.JavaByte | imhotep-server/src/main/java/com/indeed/imhotep/local/MultiCache.java:133 | the `(byte)` cast lands in [-128, 128) and is the identity there |
| MultiCacheSpec.OriginalOrderInverse | imhotep-server/src/main/java/com/indeed/imhotep/local/MultiCache.java:126-134 | when the ordering is a permutation of at most 128 statistics, `originalOrder` is its inverse: slot j names the packed column whose original order is j |
| MultiCache.GatherInto | imhotep-server/src/main/java/com/indeed/imhotep/local/MultiCache.java:153 | `original.lookup(ids, out, n)`: out[i] becomes the column's value for ids[i], for i < n, and the rest of out is untouched |
| MultiCache.NativeHeap.Build | imhotep-server/src/main/java/com/indeed/imhotep/local/MultiCache.java:206-214 | `nativeBuildMultiCache` returns a nonzero handle that was not live, and only that handle becomes live |
| MultiCache.NativeHeap.Destroy | imhotep-server/src/main/java/com/indeed/imhotep/local/MultiCache.java:204 | `nativeDestroyMultiCache(h)` is recorded, in call order, and h is no longer live |
| MultiCache.CompactNonzero | imhotep-server/src/main/java/com/indeed/imhotep/local/MultiCache.java:309-319 | after the in-place loop, the first rewriteHead entries of the two buffers are exactly the documents with nonzero groups and their groups, in input order, and the rest of both buffers is untouched |
| MultiCache.MarkRemapped | imhotep-server/src/main/java/com/indeed/imhotep/local/MultiCache.java:351-370 | the marker array and the remap buffer end as the in-order regroup step (RemapStep) prescribes |
| MultiCache.MultiCache.BuildCache | imhotep-server/src/main/java/com/indeed/imhotep/local/MultiCache.java:116-144 | the five layout arrays hold the ordering's fields column by column, `originalOrder[ordering[i].originalOrder] == (byte) i`, and for up to 128 statistics `originalOrder` inverts the ordering |
| MultiCache.MultiCache.New | imhotep-server/src/main/java/com/indeed/imhotep/local/MultiCache.java:71-114 | the native table is built first; when the group lookup's memory claim is refused the result is OutOfMemory and the built table stays live; otherwise the table holds the source groups and group count, packed column c holds statistic `ordering[c].originalOrder`, the lookup for statistic j reads statistic j, nothing is closed, and the copy calls follow the block and chunk schedules |
| MultiCache.MultiCache.constructor | imhotep-server/src/main/java/com/indeed/imhotep/local/MultiCache.java:77-113 | the new table is valid, holds the copied groups and metrics, keeps the native handle, has no closed lookups, and its copy calls follow the block and chunk schedules |
| MultiCache.MultiCache.Populate | imhotep-server/src/main/java/com/indeed/imhotep/local/MultiCache.java:85-113 | the groups, group count and every packed column are copied from their sources along the two schedules, and the lookups are created |
| MultiCache.MultiCache.CreateMetricLookups | imhotep-server/src/main/java/com/indeed/imhotep/local/MultiCache.java:90-97 | one fresh, open lookup per statistic; the lookup in slot `ordering[col].originalOrder` reads packed column col with that column's min and max |
| MultiCache.MultiCache.CopyGroups | imhotep-server/src/main/java/com/indeed/imhotep/local/MultiCache.java:157-167 | the table's groups become the source's, copied in the block schedule of 8192, and the lookup's group count becomes the source's |
| MultiCache.MultiCache.CopyValues | imhotep-server/src/main/java/com/indeed/imhotep/local/MultiCache.java:149-155 | the id buffer holds start..start+count-1 and only documents [start, start+count) of the one packed column change, to the source's values |
| MultiCache.MultiCache.CopyChunk | imhotep-server/src/main/java/com/indeed/imhotep/local/MultiCache.java:100-104 | one chunk copied for every column extends the correctly copied prefix of every packed column from row to row+count, and logs that chunk's calls in column order |
| MultiCache.MultiCache.CopyAllMetrics | imhotep-server/src/main/java/com/indeed/imhotep/local/MultiCache.java:98-113 | every packed column c ends equal to source statistic `ordering[c].originalOrder`, and the calls made are exactly the chunk schedule |
| MultiCache.MultiCache.GetIntValueLookup | imhotep-server/src/main/java/com/indeed/imhotep/local/MultiCache.java:169-171 | the lookup for statistic statIndex belongs to this table and reads the packed column whose original order is statIndex |
| MultiCache.MultiCache.Close | imhotep-server/src/main/java/com/indeed/imhotep/local/MultiCache.java:184-195 | the native table at the current pointer is destroyed and the pointer becomes 0 |
| MultiCache.MultiCache.ChildLookupClosed | imhotep-server/src/main/java/com/indeed/imhotep/local/MultiCache.java:177-182 | the closed count rises by one and never passes numStats; the table is destroyed exactly when the count reaches numStats |
| MultiCache.ClosedCountBound | imhotep-server/src/main/java/com/indeed/imhotep/local/MultiCache.java:177-182 | in a valid table the closed count lies between 0 and numStats |
| MultiCache.MetricLookup.constructor | imhotep-server/src/main/java/com/indeed/imhotep/local/MultiCache.java:239-243 | a lookup starts open with its column index, min and max |
| MultiCache.MetricLookup.Lookup | imhotep-server/src/main/java/com/indeed/imhotep/local/MultiCache.java:257-260 | values[i] receives the packed column's value for docIds[i], for i < n, and nothing else changes |
| MultiCache.MetricLookup.Close | imhotep-server/src/main/java/com/indeed/imhotep/local/MultiCache.java:267-275 | a second close changes nothing (count, pointer, heap); a first close marks the lookup closed and adds one to the count, and the table is destroyed exactly when that makes the count numStats |
| MultiCache.MultiCacheGroupLookup.constructor | imhotep-server/src/main/java/com/indeed/imhotep/local/MultiCache.java:289-296 | two fresh, distinct, zero-filled buffers of BUFFER_SIZE entries |
| MultiCache.MemoryUsedMatchesClaim | imhotep-server/src/main/java/com/indeed/imhotep/local/MultiCache.java:476-479 | the memory the lookup reports is exactly the 2·4·BUFFER_SIZE bytes its constructor claims |
| MultiCache.MultiCacheGroupLookup.Set | imhotep-server/src/main/java/com/indeed/imhotep/local/MultiCache.java:422-425 | afterwards `get(doc)` is the new group and every other document keeps its group |
| MultiCache.MultiCacheGroupLookup.FillDocGrpBufferSequential | imhotep-server/src/main/java/com/indeed/imhotep/local/MultiCache.java:486-489 | the buffer's first n entries are the groups of documents start..start+n-1 |
| MultiCache.MultiCacheGroupLookup.FillDocGrpBuffer | imhotep-server/src/main/java/com/indeed/imhotep/local/MultiCache.java:481-484 | entry i of the group buffer is the group of docIdBuf[i], for i < n |
| MultiCache.MultiCacheGroupLookup.BatchSet | imhotep-server/src/main/java/com/indeed/imhotep/local/MultiCache.java:427-430 | the groups become the in-order write-back of docGrpBuffer[i] to docIdBuf[i], for i < n |
| MultiCache.MultiCacheGroupLookup.NextGroupCallback | imhotep-server/src/main/java/com/indeed/imhotep/local/MultiCache.java:298-334 | returns the number of nonzero groups among the n documents; the first rewriteHead entries of docIdBuf and docGroupBuffer are exactly those documents and groups, in order, all nonzero; the seen set gains exactly those groups; each statistic receives the survivors only when there are some |
| MultiCache.MultiCacheGroupLookup.ApplyConditionsCallback | imhotep-server/src/main/java/com/indeed/imhotep/local/MultiCache.java:345-375 | the group buffer holds the documents' groups, markers and remap buffer follow the regroup step, and all n remap slots, assigned or stale, are written back as groups |
| MultiCache.MultiCacheGroupLookup.ApplyIntConditionsCallback | imhotep-server/src/main/java/com/indeed/imhotep/local/MultiCache.java:338-376 | the same, with each rule's condition checked against (intField, itrTerm) |
| MultiCache.MultiCacheGroupLookup.ApplyStringConditionsCallback | imhotep-server/src/main/java/com/indeed/imhotep/local/MultiCache.java:378-415 | the same, with each rule's condition checked against (stringField, itrTerm) |
| MultiCache.MultiCacheGroupLookup.CopyInto | imhotep-server/src/main/java/com/indeed/imhotep/local/MultiCache.java:437-464 | sizes differ: IllegalArgument with the message naming both sizes and nothing copied; otherwise every document's group in `other` equals this lookup's and `other.numGroups` equals this one's |
| RemoteMultiSession.Requests | imhotep-client/src/main/java/com/indeed/imhotep/RemoteImhotepMultiSession.java:93-107 | one request per session, request i asked of session i with split index i and the caller's query |
| RemoteMultiSession.ClosedSlots | imhotep-client/src/main/java/com/indeed/imhotep/RemoteImhotepMultiSession.java:108-110 | after a failed fan-out there is one slot per session and none is left open |
| RemoteMultiSession.SplitsOutcome | imhotep-client/src/main/java/com/indeed/imhotep/RemoteImhotepMultiSession.java:92-113 | the split fan-out's result: the requests when every session answered, else the slots with every opened iterator closed (its meaning is proved in SplitsOutcomeMeaning) |
| RemoteMultiSession.FTGSOutcome | imhotep-client/src/main/java/com/indeed/imhotep/RemoteImhotepMultiSession.java:70-85 | `getFTGSIterator`'s result: one session's own iterator, or the interleaver of all splits wrapped for termLimit and sortStat, or the fan-out's failure (its meaning is proved in FTGSOutcomeMeaning) |
| RemoteMultiSession.SubsetOutcome | imhotep-client/src/main/java/com/indeed/imhotep/RemoteImhotepMultiSession.java:115-122 | `getSubsetFTGSIterator`'s result: one session's own subset iterator, or the bare interleaver of all splits, or the fan-out's failure |
| RemoteMultiSession.SplitsOutcomeMeaning | imhotep-client/src/main/java/com/indeed/imhotep/RemoteImhotepMultiSession.java:92-113 | the split fan-out succeeds if and only if every session answered, and on failure no split iterator is left open |
| RemoteMultiSession.FTGSOutcomeMeaning | imhotep-client/src/main/java/com/indeed/imhotep/RemoteImhotepMultiSession.java:70-85 | a single session's own iterator is returned for the same query; otherwise the pipeline reads split i from session i; it caps terms at termLimit iff termLimit > 0, and ranks by sortStat iff in addition sortStat >= 0 |
| RemoteMultiSession.RemoteImhotepMultiSession.constructor | imhotep-client/src/main/java/com/indeed/imhotep/RemoteImhotepMultiSession.java:48-58 | the session id and temp-file limit are stored as given, and the budget field refers to the caller's own `AtomicLong` object (or null), not to a copy of its value, so spending through that object is seen by the session |
| RemoteMultiSession.RemoteImhotepMultiSession.ExecuteSplits | imhotep-client/src/main/java/com/indeed/imhotep/RemoteImhotepMultiSession.java:92-113 | the loop over the sessions yields SplitsOutcome: all requests when every session answered, else the slots with every opened iterator closed |
| RemoteMultiSession.RemoteImhotepMultiSession.GetFTGSIteratorSplits | imhotep-client/src/main/java/com/indeed/imhotep/RemoteImhotepMultiSession.java:92-113 | the split fan-out for a full query with the given termLimit and sortStat |
| RemoteMultiSession.RemoteImhotepMultiSession.GetFTGSIteratorSplitsUnsorted | imhotep-client/src/main/java/com/indeed/imhotep/RemoteImhotepMultiSession.java:87-90 | the three-argument overload uses sortStat -1 |
| RemoteMultiSession.RemoteImhotepMultiSession.GetSubsetFTGSIteratorSplits | imhotep-client/src/main/java/com/indeed/imhotep/RemoteImhotepMultiSession.java:124-146 | the split fan-out for a subset query |
| RemoteMultiSession.RemoteImhotepMultiSession.GetFTGSIterator | imhotep-client/src/main/java/com/indeed/imhotep/RemoteImhotepMultiSession.java:70-85 | the pipeline chosen from the number of sessions, termLimit and sortStat, or the fan-out's failure |
| RemoteMultiSession.RemoteImhotepMultiSession.GetFTGSIteratorWithLimit | imhotep-client/src/main/java/com/indeed/imhotep/RemoteImhotepMultiSession.java:65-68 | the three-argument overload uses sortStat -1 |
| RemoteMultiSession.RemoteImhotepMultiSession.GetFTGSIteratorUnlimited | imhotep-client/src/main/java/com/indeed/imhotep/RemoteImhotepMultiSession.java:60-63 | the two-argument overload uses termLimit 0 and sortStat -1 |
| RemoteMultiSession.RemoteImhotepMultiSession.GetSubsetFTGSIterator | imhotep-client/src/main/java/com/indeed/imhotep/RemoteImhotepMultiSession.java:115-122 | one session: its own subset iterator; otherwise the bare interleaver of all splits, or the fan-out's failure |
| RemoteMultiSession.Max | imhotep-client/src/main/java/com/indeed/imhotep/RemoteImhotepMultiSession.java:169 | `Collections.max` of a non-empty list is one of its elements and no element exceeds it |
| RemoteMultiSession.RemoteImhotepMultiSession.RegroupWithProtos | imhotep-client/src/main/java/com/indeed/imhotep/RemoteImhotepMultiSession.java:160-171 | every answer lands in integerBuf; an out-of-memory session fails the call with numGroups unchanged; no sessions fails with NoSuchElement; otherwise numGroups becomes the maximum answer and is returned |
| FixedWidth.WrapInt64 | imhotep-client/src/main/java/com/indeed/imhotep/RemoteImhotepMultiSession.java:181 | `long` subtraction: the result is a 64-bit value, congruent to the exact one modulo 2^64, and equal to it when that fits |
| RemoteMultiSession.RemoteImhotepMultiSession.GetTempFilesBytesWritten | imhotep-client/src/main/java/com/indeed/imhotep/RemoteImhotepMultiSession.java:177-182 | -1 when there is no counter or the limit is not positive; otherwise the `long` value that, added to what the shared counter holds at the time of the call, gives the limit |
| RemoteMultiSession.TempFilesBytesWrittenInRange | imhotep-client/src/main/java/com/indeed/imhotep/RemoteImhotepMultiSession.java:177-182 | when 0 <= left <= limit, the count written lies in [0, limit] and equals limit - left exactly |
| RemoteMultiSession.RemoteImhotepMultiSession.CombinePerformanceStats | imhotep-client/src/main/java/com/indeed/imhotep/RemoteImhotepMultiSession.java:200-212 | null in iff null out; otherwise the builder is given exactly the non-null entries, in order |
| RemoteMultiSession.PresentCount | imhotep-client/src/main/java/com/indeed/imhotep/RemoteImhotepMultiSession.java:206-210 | the builder receives as many stats as there are non-null entries |
| RemoteMultiSession.PresentMembers | imhotep-client/src/main/java/com/indeed/imhotep/RemoteImhotepMultiSession.java:206-210 | a stat is given to the builder if and only if it is a non-null entry |
| LocalSession.SessionDesc.SessionInit | imhotep-server/src/main/native/optimized_ftgs/optimized/src/local_session.c:79-92 | n_groups, n_stats and only_binary_metrics are recorded unchanged |
| LocalSession.Worker.WorkerInit | imhotep-server/src/main/native/optimized_ftgs/optimized/src/local_session.c:166-179 | num_streams becomes num_sockets, stream i is a fresh stream on socket_fds[i] with no error, and the worker's error is untouched |
| LocalSession.Worker.RunTgsPass | imhotep-server/src/main/native/optimized_ftgs/optimized/src/local_session.c:13-63 | returns the pass's code; on a nonzero code the stream's socket error is copied into the worker only if its code is nonzero; the stream keeps its error and no other stream changes |
| LocalSession.Worker.WorkerStartField | imhotep-server/src/main/native/optimized_ftgs/optimized/src/local_session.c:106-128 | an unknown stream gives EBADF with the message naming stream_num and num_streams, returns -1 and writes nothing; any nonzero write result moves the stream's error into the worker, clears the stream's code and is returned; success returns 0 and leaves the worker's error alone |
| LocalSession.Worker.WorkerEndField | imhotep-server/src/main/native/optimized_ftgs/optimized/src/local_session.c:130-146 | an unknown stream gives EBADF, returns -1 and writes nothing; only a write result of -1 moves and clears the error and returns -1; any other result returns 0 and leaves the worker's error alone |
| LocalSession.Worker.WorkerEndStream | imhotep-server/src/main/native/optimized_ftgs/optimized/src/local_session.c:148-164 | the same protocol as WorkerEndField around the stream-end write |
| BtreeInt.DecodeInt64 | imhotep-server/src/main/native/optimized_ftgs/cpp/include/btree/int.hpp:17-19 | the value read from 8 bytes is an int64 |
| BtreeInt.DecodeEncodeInt64 | imhotep-server/src/main/native/optimized_ftgs/cpp/include/btree/int.hpp:17-19 | reading back the stored bytes of an int64 gives that int64 |
| BtreeInt.EncodeDecodeInt64 | imhotep-server/src/main/native/optimized_ftgs/cpp/include/btree/int.hpp:17-19 | every 8 bytes are the stored form of the value read from them |
| BtreeInt.DecodeInt64Injective | imhotep-server/src/main/native/optimized_ftgs/cpp/include/btree/int.hpp:17-19 | two 8-byte regions read as the same value if and only if they hold the same bytes |
| BtreeInt.Long.Value | imhotep-server/src/main/native/optimized_ftgs/cpp/include/btree/int.hpp:17-19 | `operator()`: an int64 whose stored form is exactly the 8 bytes at begin |
| BtreeInt.Long.Less | imhotep-server/src/main/native/optimized_ftgs/cpp/include/btree/int.hpp:21-23 | `<` compares the two values read (properties in LongTrichotomy) |
| BtreeInt.Long.Greater | imhotep-server/src/main/native/optimized_ftgs/cpp/include/btree/int.hpp:25-27 | `>` compares the two values read (properties in LongTrichotomy) |
| BtreeInt.Long.Equal | imhotep-server/src/main/native/optimized_ftgs/cpp/include/btree/int.hpp:29-31 | `==` compares the two values read (properties in LongEqualIffSameBytes) |
| BtreeInt.Long.ToString | imhotep-server/src/main/native/optimized_ftgs/cpp/include/btree/int.hpp:48-52 | the generic `operator<<` prints the value in decimal (round trip in LongToStringRoundTrip) |
| BtreeInt.LongPair.First | imhotep-server/src/main/native/optimized_ftgs/cpp/include/btree/int.hpp:17-19 | `.first` of `operator()`: an int64 whose stored form is the first 8 bytes at begin |
| BtreeInt.LongPair.Second | imhotep-server/src/main/native/optimized_ftgs/cpp/include/btree/int.hpp:17-19 | `.second` of `operator()`: an int64 whose stored form is the next 8 bytes |
| BtreeInt.LongPair.Value | imhotep-server/src/main/native/optimized_ftgs/cpp/include/btree/int.hpp:17-19 | `operator()`: the pair (first, second) |
| BtreeInt.LongPair.Less | imhotep-server/src/main/native/optimized_ftgs/cpp/include/btree/int.hpp:21-23 | `std::pair`'s lexicographic `<` on the values read (properties in LongPairOrder) |
| BtreeInt.LongPair.Greater | imhotep-server/src/main/native/optimized_ftgs/cpp/include/btree/int.hpp:25-27 | `std::pair`'s `>`, which is `rhs < lhs` (properties in LongPairOrder) |
| BtreeInt.LongPair.Equal | imhotep-server/src/main/native/optimized_ftgs/cpp/include/btree/int.hpp:29-31 | both halves equal (properties in LongPairOrder and LongPairEqualIffSameBytes) |
| BtreeInt.LongPair.ToString | imhotep-server/src/main/native/optimized_ftgs/cpp/include/btree/int.hpp:54-58 | the dedicated `operator<<` prints `(first . second)` (round trip in LongPairToStringRoundTrip) |
| BtreeInt.LongReadsStoredValue | imhotep-server/src/main/native/optimized_ftgs/cpp/include/btree/int.hpp:15-19 | a `Long` over a buffer in which x is stored at begin reads x |
| BtreeInt.LongRegion | imhotep-server/src/main/native/optimized_ftgs/cpp/include/btree/int.hpp:33-39 | a `Long` is 8 bytes long, end − begin is 8, and its value is that of the 8 bytes at begin |
| BtreeInt.LongEqualIffSameBytes | imhotep-server/src/main/native/optimized_ftgs/cpp/include/btree/int.hpp:29-31 | two `Long`s are `==` if and only if their bytes are equal |
| BtreeInt.LongTrichotomy | imhotep-server/src/main/native/optimized_ftgs/cpp/include/btree/int.hpp:21-31 | exactly one of a < b, a == b, a > b holds, and a > b iff b < a |
| BtreeInt.LongPairOrder | imhotep-server/src/main/native/optimized_ftgs/cpp/include/btree/int.hpp:21-43 | `LongPair` `<` is irreflexive and transitive, exactly one of <, ==, > holds, a > b iff b < a, and == iff both halves are equal |
| BtreeInt.LongPairEqualIffSameBytes | imhotep-server/src/main/native/optimized_ftgs/cpp/include/btree/int.hpp:29-43 | two `LongPair`s are `==` if and only if their 16 bytes are equal |
| BtreeInt.LongToStringRoundTrip | imhotep-server/src/main/native/optimized_ftgs/cpp/include/btree/int.hpp:48-52 | the printed decimal form of a `Long` parses back to its value |
| BtreeInt.LongPairToStringRoundTrip | imhotep-server/src/main/native/optimized_ftgs/cpp/include/btree/int.hpp:54-58 | the printed form `(first . second)` parses back to the pair's two values |
| Decimal.IntToStringRoundTrip | imhotep-server/src/main/native/optimized_ftgs/cpp/include/btree/int.hpp:48-52 | the decimal rendering of any integer parses back to it |

## Left out

- Native library loading (MultiCache.java:43-70) is file and class-loader I/O.
- The native table's packed bit layout (`PackedTableView`, `nativeBuildMultiCache`) is not visible.
  - The table is its contents (`groups`, `metrics`), and the build is a fresh nonzero handle from `NativeHeap`.
  - The layout arrays are passed as sequences, and `onlyBinaryMetrics` is accepted but has no effect here.
  - Range checks the packed table may make on groups are not modelled.
- The native bodies of `fill`, `bitSetRegroup` and `recalculateNumGroups` are not visible, and their semantics are not invented.
  - The same holds for `nativeGetGroupStats`.
  - `getSession`, `getGroupLookup`, `getNativeAddress` and the metric lookup's `getMin`/`getMax`/`memoryUsed` (constant 0) are plain accessors.
- MultiCache.MultiCache.constructor: the metric lookups are created after the copies, not between `copyGroups` and the metric copies.
  - The two steps touch disjoint state, so the resulting table is the same.
  - The calls to `nativeSetGroupsInRange` and `nativePackMetricDataInRange` appear as the ghost logs `groupCopyLog` and `metricCopyLog`.
- MultiCache.MultiCache.CopyGroups: `start += BLOCK_COPY_SIZE` is not modelled with 32-bit wrap-around.
  - Neither is `row + CHUNK_SIZE` in the constructor.
  - Both could overflow only for shards within 8192 documents of 2^31.
- MultiCache.MultiCache.Close: a second `close()` of the table passes pointer 0 to the destroy call, which the heap records.
  - What the native destroy does with 0 is not visible.
- MultiCache.MetricLookup.Close: the "closed twice" log message is not modelled.
- Several collaborators' code is not visible:
  - `ImhotepJavaLocalSession.updateGroupStatsDocIdBuf` becomes a recorded `StatUpdate` per statistic.
  - `BitTree.set` becomes set union.
  - `checkIntCondition`/`checkStringCondition` become function parameters.
  - `MemoryReservationContext.claimMemory` becomes a function parameter.
- MultiCache.MultiCache.New, MultiCache.MultiCache.BuildCache and MultiCache.MultiCache.constructor require the ordering's `originalOrder` values to be a permutation of 0..numStats-1.
  - This is a caller obligation stated as a precondition, not modelled as an exception.
  - In Java a duplicate value leaves a null slot in `metricLookups`, and a value out of range throws `ArrayIndexOutOfBoundsException` (MultiCache.java:90-97, 126-134).
- MultiCache.MultiCacheGroupLookup.ApplyConditionsCallback, MultiCache.MultiCacheGroupLookup.ApplyIntConditionsCallback and MultiCache.MultiCacheGroupLookup.ApplyStringConditionsCallback require every group read to index `remapRules`.
  - In Java a group outside the array throws `ArrayIndexOutOfBoundsException` at `remapRules[group]` (MultiCache.java:351-370); here it is a precondition.
- MultiCache.MultiCache.GetIntValueLookup requires `statIndex < numStats`; in Java an out-of-range index throws (MultiCache.java:169-171), here it is a precondition.
- `ThreadSafeBitSet` is a sequential `bool` array, because concurrency is not modelled.
- MultiCache.MultiCacheGroupLookup.MaxGroup, Size and Get are plain accessors with no contract of their own.
  - MaxGroup is `1 << 28`, and Size and Get appear in the contracts of Set and CopyInto.
- `RemoteImhotepMultiSession`'s parallel `execute`/`executeMemoryException`, sockets and the interleaver and top-terms iterator internals are left out.
  - The outcome of each session's call is an input, and the returned iterator is described by its shape.
  - RegroupWithProtos distinguishes only out-of-memory among session failures.
- `regroup` (imhotep-client/src/main/java/com/indeed/imhotep/RemoteImhotepMultiSession.java:151-158) is not modelled: it marshals each rule with `ImhotepClientMarshaller`, which is not visible, and then delegates to `regroupWithProtos`, which RegroupWithProtos models.
- `writeFTGSIteratorSplit` (imhotep-client/src/main/java/com/indeed/imhotep/RemoteImhotepMultiSession.java:185-187) and `createImhotepRemoteSession` (imhotep-client/src/main/java/com/indeed/imhotep/RemoteImhotepMultiSession.java:190-192) are not modelled: both only throw `UnsupportedOperationException`.
  - `getSessionId` is a plain accessor, and `numStats` is taken as a constructor parameter.
- RemoteMultiSession.RemoteImhotepMultiSession.CombinePerformanceStats: the builder is modelled as the list of stats given to it, without the arithmetic of `PerformanceStats`.
- LocalSession.Worker.WorkerStartField: the `snprintf` truncation of the message to the size of `error.str` is not modelled; the error holds the whole message.
- Several calls in `local_session.c` are I/O or not visible and are left out:
  - `tgs_init`/`tgs_destroy`, `term_init`/`term_destroy`, timers;
  - `stream_init` internals beyond the socket;
  - `calloc` failure;
  - the group-stats and circular buffer allocation in `session_init`;
  - `session_destroy`.
- A negative `stream_num` is not checked by the C code, so the stream index is a `nat`.
- In `int.hpp`, the host's byte order and alignment are fixed as little-endian two's complement.

## Findings

| source | as written | input that shows it | evidently intended | confidence | as-written member | corrected member |
|---|---|---|---|---|---|---|
| imhotep-server/src/main/java/com/indeed/imhotep/local/MultiCache.java:351-375 | `remap_buffer[i]` is assigned only for documents that are remapped in this call, yet all n slots are written back as groups by `nativeUpdateGroups` | one document 0 in group 1, no rule for group 1, remap buffer still zero: the document is moved from group 1 to group 0 | a document that is not remapped keeps its current group | not executed; depends on `nativeUpdateGroups` writing every slot, whose body is not visible | MultiCacheSpec.StaleRemapSlotIsWrittenBack (class behaviour: MultiCache.MultiCacheGroupLookup.ApplyConditionsCallback) | MultiCacheSpec.IntendedRemapKeepsSkipped (over MultiCacheSpec.IntendedRemapStep) |

The class methods keep the behaviour as written. The intended step is a separate definition, and its property is proved separately.
