# S4 Logs: a Dafny model of its protocols

S4 Logs moves CloudWatch log events into compressed S3 objects. A gateway
buffers and writes ahead, a drain job archives history window by window, a
repair pass appends late events, a gate decides when CloudWatch may delete, and
an indexed reader and a restore batcher bring events back. This project models
those parts and proves what they promise over all inputs and all runs.
`dafny verify dfyconfig.toml` checks everything.

| modules | models |
|---|---|
| `Chunk`, `TsIndexFormat` | the chunk writer and its two indexes, the line reader, the S4LT bytes |
| `Wal`, `Gateway`, `GatewayDurability`, `GatewayConservation`, `GatewayReplay`, `GatewayFiles`, `GatewayPlaces`, `BufferManagers` | the write-ahead log and the gateway protocol: a step machine with crashes, the same machine with its segment files byte by byte, and the class whose every method extends a run of that machine |
| `Windows`, `Shards`, `Drain`, `Keys`, `Resume`, `ResumeOrders` | the time grid, stream shards, the window writer, one drain and any number of interrupted ones, each attempt with its own order of events |
| `Archive`, `Reconcile`, `Retention`, `RetentionSafety` | reading listed objects back, the repair pass, the fail-closed gate over every run of drains, repairs, crashes and stray bytes |
| `Clusters`, `Merge`, `ScanObject`, `TieOrder`, `ObjectReader`, `ScanOrder`, `Scan`, `DrainScan`, `DrainScanExact` | frame pruning and clustering, the k-way merge, the order among ties, the whole scan, and the scan of what drains have written |
| `Text`, `Layout` | object keys, names and their parsers |
| `Restore`, `Calendar` | the restore batcher and the closed-form day count |
| `Common`, `Sorting`, `Bags` | shared vocabulary, the stable sort used as reference, sums of multisets over maps |

## The main theorems

- **Gateway, log on.** In every state reached by any interleaving of pushes,
  sweeps, flushes, failures, replays and crashes, the acknowledged records are
  contained, with multiplicity, in the stored chunks plus the fsynced lines of
  segments still on disk (`GatewayDurability.AcknowledgedNeverLost`); the class
  methods `PushEvents` and `ReplayWal` inherit it. The same holds in bytes: over
  every run whose crashes cut every segment file anywhere past its fsynced bytes
  and may bring deleted files back, the acknowledged records are within the stored
  chunks plus what a scan of the files returns after one more such crash
  (`GatewayFiles.AcknowledgedSurviveCuts`). No byte cut and no boot on a scan of
  the files is refused by the machine (`GatewayFiles.RunGoesOn`).
- **Gateway, one day per chunk.** In every reachable state every buffer, task and
  stored chunk holds records of one UTC day only (`GatewayPlaces.RunsKeepDays`), an
  accepted batch has each record in a buffer, task or chunk of its own group and day
  (`BufferManager.PushEvents`), and what is stored is a sound archive for the scan
  (`GatewayPlaces.StoredChunksAreSound`).
- **Gateway, log off.** Appended = stored + live + in flight + dropped at every
  step, and dropped stays empty unless a flush fails while its key has been
  recreated and its buffer was not encoded or is above the decompression ceiling
  (`GatewayConservation.RecordsConserved`).
- **Retention.** The gate fetches its manifests one at a time while drains,
  repairs and crashes go on. Whenever it issues the policy, every instant since the
  start of coverage that is more than the retention before now lies in a window that
  it saw covered (`Retention.EnforceRetention`). The window of each such instant was
  drained exactly once, everything CloudWatch ever returned to that drain is readable through the
  window's manifest, and the archive knows every event ever returned to its
  completed repairs, those that found nothing missing included, provided that no
  stray bytes landed on the window's manifest key while it was covered
  (`RetentionSafety.ExpiredEventsAreArchived`). Under the same proviso a covered
  window stays covered, what it lists only grows and keeps its bytes
  (`RetentionSafety.ListingOnlyGrows`). The proviso is exact:
  `RetentionSafety.LostExactlyByStrayBytes`.
- **Resume.** Each attempt on a window may see its events in another order, as
  sharded paging does. After any number of interruptions a covered window's listed
  objects read back as the events CloudWatch holds for it
  (`Resume.ListedReadBack`). The store is the one an uninterrupted drain leaves, up
  to completion times, if no attempt had begun an object at or beyond the
  completing attempt's object count, and only then when the windows held no objects
  before (`Resume.InterruptedEqualsUninterrupted`). With one order per window, as in
  an unsharded drain over unchanged contents, that is always so
  (`ResumeOrders.OneOrderEndsAlike`).
- **Repair.** A repair appends an in-window event exactly when no record archived or
  appended before it has the same id hash or, for a record without an id, the same
  content hash; so afterwards every in-window event has such a record, counts still
  add up, and a second repair over the same events writes nothing
  (`Reconcile.RepairIsCompleteAndIdempotent`, `Reconcile.SecondRepairIsIdle`).
- **Placement.** Every data object a drain or a repair stores lies under its account
  and group and the UTC date of every record in it (`Keys.StoredUnderItsDate`); its
  manifest entry gives its length, text size, record count and exact time bounds
  (`Archive.EntriesDescribe`).
- **Scan.** Whatever sidecars are missing or rejected, and if the ones accepted are
  their object's own, the scan emits exactly the matching records of the chosen
  groups; its output is one stable sort by (timestamp, stream) of the listed objects
  in group, date and name order, each in reading order. A record occurs in the output, with a
  chosen group, as often as the group's decoded objects hold it if its timestamp is in
  the range and the pattern, if any, accepts its message, and never otherwise
  (`Scan.ScanLogGroups`). Reading order is arrival order among ties
  for every object with a given index if and only if no later frame starts before
  an earlier one with which it shares an instant of the range
  (`TieOrder.TieOrderExact`).
- **Drain, then scan.** Once every window is covered, after attempts in any orders
  interrupted anywhere, the scan is due exactly CloudWatch's matching events, each
  once, if and only if no attempt had begun an object at or beyond the completing
  attempt's object count (`DrainScanExact.ScansExactly`). With one order per window
  that is always so (`DrainScanExact.DrainThenScan`), and in every intermediate state
  too each stored object has its sidecars either missing or its own
  (`DrainScan.DrainedArchiveIsSound`).
- **Merge, clusters, batches.** The merge is the stable sort of its sources
  (`Merge.MergeAll`), clusters are the connected components of frame overlap
  (`Clusters.ClustersAreComponents`), and the restore batches are the fewest any
  limit-respecting split can use (`Restore.BatchingIsOptimal`).

## What is assumed of the outside

- `Chunk.Codec.Lawful`: a JSON line decodes to what was encoded and holds no raw
  newline or carriage return (section 7 of RFC 8259); concatenated zstd frames
  decompress to the concatenation (section 3.1 of RFC 8878). A failing encode is a
  step of the gateway, and so is a frame cut that fails after the record and its log
  line are in place (the record is then kept in the writer's next frame); in the
  drain compression is taken to succeed.
- `Wal.EntryCodec.Lawful`: additionally no proper prefix of an encoded entry
  decodes; `NoJoin`: a non-empty beginning of one followed by another does not.
  `Drain.ManifestCodec.Lawful`: a manifest decodes to itself. `Drain.Options.Legal`:
  an S4IX sidecar decodes to the frame entries it was written from.
- `ScanObject.Stores`: sidecars that load with equal counts are the object's own. The
  reader does not check this: it never compares the source etag. `DrainScan` proves
  it of drains with one order per window, and of completed ones without leftovers; see
  below for where it fails.
- A date partition is the number of the UTC day, as it is for timestamps within
  the calendar library's range (`date_from_ts_ms` clamps the others); its text is a
  slash-free label in `Drain.Options`, which names one day (`DrainScan.DatesTell`).
- The two 128-bit identity hashes are parameters; repair results are stated about
  identities.
- One window length per group and at most one job per window at a time, since
  object names omit the window end. Log groups are byte strings; accounts hold no
  slash. A started flush is not cancelled. Every deleted segment may reappear in
  a crash; created ones stay.
- Outcomes of PUTs, fsyncs, file creation and deletion, clocks and page cuts are
  parameters over which every statement quantifies.

## Where the code is narrower than its comments

- Stray bytes on a covered window's manifest key make the next run drain the window
  again, and a drain that then returns less replaces the listing: from the empty
  store, one event drained, one overwritten manifest and one empty drain end with
  the window covered and the event unlisted (`RetentionSafety.OneEventLost`).
- A sharded drain that is interrupted and completed in another order can leave an
  object that no manifest lists: six events make three objects in one order and two
  in another (`ResumeOrders.OrdersDiffer`), and the third object of the first attempt
  stays beside the two listed ones (`ResumeOrders.LeftoverObject`). The scan lists by
  prefix, so it is due that object's records a second time. The exact condition is in
  `Resume.ExactlyTheUninterrupted` for the store and in `DrainScanExact.ScansExactly`
  for the scan.
- Such a drain can also stop between a data object and its sidecars and leave those
  of an earlier attempt. They load, and a scan prunes by them without an error
  although the body holds a matching record (`DrainScan.StaleSidecarsLose`,
  `ObjectReader.ForeignSidecarsLose`).
- A failed append that left part of its line behind joins the next line: the later
  entry survives the scan if and only if nothing was left
  (`Wal.EntryCodec.AppendAfterPartialWrite`). The protocol machine takes an append
  as all or nothing.
- Merging a failed flush into a recreated key, with the log off, keeps its records
  exactly when it was encoded and its text is at most 64 GiB
  (`GatewayConservation.ReinsertConserves`).
- The window loops overflow 64 bits exactly when they reach the last UTC day of the
  64-bit range (`Windows.CompleteWindows`, `Windows.CoveringWindows`,
  `Windows.LastDayOverflows`).
- The documented arrival order among ties fails for an object whose second frame
  starts earlier and shares a (timestamp, stream) with the first
  (`TieOrder.SwappedTie`); see the exact condition above.
- `unsanitize_log_group` accepts lower-case hex and escaped plain letters, so it is
  inverted by sanitize exactly on canonical text (`Layout.UnsanitizeRoundTrip`).
- A manifest key reads back its window exactly when the start is not negative
  (`Layout.ManifestKeyWindowRoundTrip`), and a data key its location exactly when
  account, date and name hold no slash (`Layout.DataKeyRoundTrip`). It reads back
  its log group exactly when no earlier segment is tagged `loggroup=`, or that one
  names the same group (`Layout.ManifestKeyGroupRoundTrip`).
- A reconcile object with a five-digit sequence number is invisible to
  `next_attempt` (`Layout.LongSequenceIsInvisible`); freshness rests on the attempt's
  first object being listed too, which every completed repair does
  (`Archive.AttemptIsFresh`).

## Model

| member | source | states |
|---|---|---|
| `Chunk.ChunkWriter.PushRecord` | crates/s4logs-core/src/chunk.rs:116-125 | the fields move to the state of one more push, cutting a frame at the target |
| `Chunk.ChunkWriter.Cut` | crates/s4logs-core/src/chunk.rs:127-152 | closing a frame moves the pending text into body and both indexes, or changes nothing when it is empty |
| `Chunk.ChunkWriter.EncodeChunk` | crates/s4logs-core/src/chunk.rs:155-213 | encoding yields the finished chunk and leaves the writer unchanged |
| `Chunk.EncodeShape` | crates/s4logs-core/src/chunk.rs:102-213 | the chunk is the compressed frames of a partition of the pushed records into non-empty frames; None exactly for no records; byte and record counts are exact |
| `Chunk.FramesAreTight` | crates/s4logs-core/src/chunk.rs:116-125 | every frame but the last has reached the target, and none had before its last record |
| `Chunk.EntriesTile` | crates/s4logs-core/src/chunk.rs:127-152 | frame entries tile the body and the plaintext with no gap or overlap |
| `Chunk.TightBounds` | crates/s4logs-core/src/chunk.rs:116-152 | frame min and max timestamps bound every record and are attained |
| `Chunk.ChunkRoundTrip` | crates/s4logs-core/src/chunk.rs:116-213 | every frame alone and the body as a whole decode to the pushed records, indexes are one to one with frames, totals and bounds are right |
| `Chunk.Codec.ParseLinesInverts` | crates/s4logs-core/src/read.rs:150-168 | parsing the lines of records gives the records back |
| `Chunk.RecordLines.Next` | crates/s4logs-core/src/read.rs:140-168 | each call yields the next non-blank line's record or error and keeps the rest; None exactly at the end |
| `Common.BlankLine` | crates/s4logs-core/src/read.rs:150-168 | a blank line is skipped |
| `Chunk.DecompressExact` | crates/s4logs-core/src/read.rs:108-136 | decompression succeeds exactly when the size is the declared one and within the ceiling |
| `TsIndexFormat.EncodeIndex` | crates/s4logs-core/src/tsindex.rs:64-74 | the loop writes the header and sixteen little-endian bytes per entry |
| `TsIndexFormat.DecodeIndex` | crates/s4logs-core/src/tsindex.rs:76-118 | decoding succeeds exactly on the encodings of valid indexes and returns that index; each of the six errors reports its own cause |
| `TsIndexFormat.EncodeInjective` | crates/s4logs-core/src/tsindex.rs:64-118 | two indexes with the same bytes are equal |
| `TsIndexFormat.OneCause` | crates/s4logs-core/src/tsindex.rs:76-118 | no input has two of the causes, so the error reported is determined |
| `TsIndexFormat.HeaderLayout` | crates/s4logs-core/src/tsindex.rs:64-74 | the first sixteen bytes are the magic, version 1 and the entry count |
| `TsIndexFormat.EntryLayout` | crates/s4logs-core/src/tsindex.rs:64-74 | entry i holds its minimum and maximum in two's complement at bytes 16 + 16 i |
| `TsIndexFormat.PutLeAt` | crates/s4logs-core/src/tsindex.rs:64-74 | byte j is the j-th digit to base 256 |
| `Wal.WalSegment.Append` | crates/s4logs-gateway/src/wal.rs:150-157 | a successful append adds one line and marks the segment dirty, a failed one leaves some first bytes of it |
| `Wal.WalSegment.Sync` | crates/s4logs-gateway/src/wal.rs:162-172 | a successful fsync makes every appended entry durable; a clean segment cannot fail |
| `Wal.ScanFile` | crates/s4logs-gateway/src/wal.rs:215-234 | the scan loop returns the intact lines of a file |
| `Wal.ScanDir` | crates/s4logs-gateway/src/wal.rs:199-238 | one result per segment file, in order, with its intact entries |
| `Wal.EntryRoundTrip` | crates/s4logs-gateway/src/buffer.rs:271-327 | a pushed record comes back from its log entry, and an entry from its record |
| `Wal.EntryCodec.ScanAfterTear` | crates/s4logs-gateway/src/wal.rs:199-238 | scanning any byte prefix of a segment returns a prefix of its entries |
| `Wal.EntryCodec.TornTailRecovery` | crates/s4logs-gateway/src/wal.rs:150-238 | if the prefix covers the fsynced part, that prefix contains all fsynced entries, and nothing but appended ones |
| `Wal.EntryCodec.JoinedLine` | crates/s4logs-gateway/src/wal.rs:215-234 | a torn line and the next one are read as one entry or none |
| `Wal.EntryCodec.AppendAfterPartialWrite` | crates/s4logs-gateway/src/wal.rs:150-157 | after a torn write the next entry is recovered exactly when no byte was left behind |
| `Gateway.PushBatchLive` | crates/s4logs-gateway/src/buffer.rs:164-175 | a batch adds to the buffers exactly the records it got through before the first failure |
| `Gateway.TakeConserves` | crates/s4logs-gateway/src/buffer.rs:529-541 | taking buffers out moves their records and loses none |
| `GatewayDurability.PushBatchDurable` | crates/s4logs-gateway/src/buffer.rs:248-284 | a batch leaves what was durable in place and adds its records to segments of live buffers |
| `GatewayDurability.SyncMakesDurable` | crates/s4logs-gateway/src/buffer.rs:289-296 | after a complete group commit everything in live segments is on fsynced lines |
| `GatewayDurability.StepKeepsInv` | crates/s4logs-gateway/src/buffer.rs:148-524 | push, take, PUT, reinsert, segment delete, crash and each replay step keep the durability invariant |
| `GatewayDurability.RunKeepsInv` | crates/s4logs-gateway/src/buffer.rs:148-524 | the invariant holds in every reachable state |
| `GatewayDurability.AcknowledgedNeverLost` | crates/s4logs-gateway/src/buffer.rs:177-207 | acknowledged records are within stored chunks plus fsynced lines on disk, after any run with any crashes |
| `GatewayConservation.ReadBackExact` | crates/s4logs-gateway/src/buffer.rs:493-504 | a buffer's chunk decodes to its records exactly when its text is within the ceiling |
| `GatewayConservation.ReinsertConserves` | crates/s4logs-gateway/src/buffer.rs:483-524 | a returned buffer's records are all back, except exactly when one that was not encoded or is oversized meets a recreated key |
| `GatewayConservation.StepKeepsAccount` | crates/s4logs-gateway/src/buffer.rs:148-524 | every step but a crash balances appended against stored, live, in flight and dropped |
| `GatewayConservation.NothingDropped` | crates/s4logs-gateway/src/buffer.rs:505-520 | without such a merge nothing is ever dropped |
| `GatewayConservation.RecordsConserved` | crates/s4logs-gateway/src/lib.rs:199-212 | conservation over every crash-free run; after an emptying final flush each appended record is stored exactly once |
| `GatewayReplay.LiveFileBacks` | crates/s4logs-gateway/src/wal.rs:150-238 | however a live segment's file is cut past its fsynced bytes, the scan finds a prefix of its entries with all fsynced ones |
| `GatewayReplay.ScanIsTodo` | crates/s4logs-gateway/src/buffer.rs:306-327 | what a scan of the directory returns is exactly what the machine replays |
| `GatewayFiles.RunKeepsInv` | crates/s4logs-gateway/src/wal.rs:150-238 | in every state of every byte-level run each segment file scans back to its segment, torn files are never written again, and the durability invariant holds |
| `GatewayFiles.RunGoesOn` | crates/s4logs-gateway/src/buffer.rs:306-342 | after any run every byte cut past the fsynced parts, and every boot on a scan of the files, is a further step |
| `GatewayFiles.AcknowledgedSurviveCuts` | crates/s4logs-gateway/src/wal.rs:150-238 | after any run and any last cuts, acknowledged records are within stored chunks plus the scan of the remaining bytes |
| `GatewayPlaces.RunsKeepDays` | crates/s4logs-gateway/src/buffer.rs:248-284 | in every reachable state no buffer, task or stored chunk spans a UTC day |
| `GatewayPlaces.AcceptedHasPlace` | crates/s4logs-gateway/src/buffer.rs:162-198 | after an acknowledged batch each record is in a buffer, task or chunk of its group and day |
| `GatewayPlaces.OutcomeKeepsPlaces` | crates/s4logs-gateway/src/buffer.rs:394-458 | however a flush ends, if its key was vacant no record loses its place |
| `GatewayPlaces.PutIsInChunks` | crates/s4logs-gateway/src/buffer.rs:424-444 | what counts as stored is what the stored chunks hold |
| `GatewayPlaces.ChunkIsSound` | crates/s4logs-gateway/src/buffer.rs:401-424 | an object stored for a buffer decodes to exactly its records, all of its own day |
| `GatewayPlaces.StoredChunksAreSound` | crates/s4logs-gateway/src/buffer.rs:417-424 | whatever a scan lists of the chunks stored in any run is a sound archive |
| `BufferManagers.BufferManager.constructor` | crates/s4logs-gateway/src/buffer.rs:125-133 | a process start over whatever segment files an earlier run left |
| `BufferManagers.BufferManager.BufferedTotal` | crates/s4logs-gateway/src/buffer.rs:544-546 | the sum of all buffers' text sizes |
| `BufferManagers.BufferManager.Largest` | crates/s4logs-gateway/src/buffer.rs:184-190 | a key of a largest buffer; None exactly when there is none |
| `BufferManagers.BufferManager.PushRecord` | crates/s4logs-gateway/src/buffer.rs:248-284 | log line before memory; the record goes to the buffer of its group and UTC day, a new one taking its timestamp and the present as name and age, and no other buffer changes |
| `BufferManagers.BufferManager.PushRecords` | crates/s4logs-gateway/src/buffer.rs:164-175 | the push loop stops at the first failure |
| `BufferManagers.BufferManager.SyncWal` | crates/s4logs-gateway/src/buffer.rs:289-296 | succeeds exactly when every live segment ends fully durable |
| `BufferManagers.BufferManager.TakeMatching` | crates/s4logs-gateway/src/buffer.rs:529-541 | removes exactly the matching buffers and returns them |
| `BufferManagers.BufferManager.TakeUntilWithinCap` | crates/s4logs-gateway/src/buffer.rs:180-196 | the flush-largest loop terminates within the cap and only moves buffers |
| `BufferManagers.BufferManager.PushSection` | crates/s4logs-gateway/src/buffer.rs:162-196 | the locked section is one machine step; on success the batch is acknowledged, the total is within the cap and no buffer is over the flush size |
| `BufferManagers.BufferManager.PushEvents` | crates/s4logs-gateway/src/buffer.rs:148-207 | accepted is acknowledged, with every record in a buffer, task or stored chunk of its group and day; refused for capacity appends nothing; all acknowledged records stay recoverable |
| `BufferManagers.BufferManager.Reserve` | crates/s4logs-gateway/src/buffer.rs:211-243 | accepts exactly when the batch fits after at most one flush; appends nothing |
| `BufferManagers.BufferManager.ReplayWal` | crates/s4logs-gateway/src/buffer.rs:306-350 | scan, replay and flush: on success exactly the scanned entries were appended; always all acknowledged records stay recoverable |
| `BufferManagers.BufferManager.ReplaySection` | crates/s4logs-gateway/src/buffer.rs:306-342 | every scanned entry is pushed and fsynced before an old file goes; a failure removes no file |
| `BufferManagers.BufferManager.PushBack` | crates/s4logs-gateway/src/buffer.rs:315-327 | the replay loop appends exactly the scanned entries |
| `BufferManagers.BufferManager.DeleteFiles` | crates/s4logs-gateway/src/buffer.rs:331-335 | only files that cannot be removed stay |
| `BufferManagers.BufferManager.FlushOne` | crates/s4logs-gateway/src/buffer.rs:394-458 | an empty buffer retires, a stored one retires after its PUT, one that fails to encode or to be stored returns |
| `BufferManagers.BufferManager.ReturnBuffer` | crates/s4logs-gateway/src/buffer.rs:483-524 | vacant key: put back; occupied with log: left to its segment; occupied without: merged by decoding its chunk, if there is one, with the older age and the earlier name |
| `BufferManagers.BufferManager.FlushTaken` | crates/s4logs-gateway/src/buffer.rs:377-392 | every taken buffer is attempted; Ok exactly when all succeed; the ready bit is the last outcome |
| `BufferManagers.BufferManager.SweepExpired` | crates/s4logs-gateway/src/buffer.rs:355-365 | with successful PUTs exactly the buffers younger than the interval stay |
| `BufferManagers.BufferManager.FlushAll` | crates/s4logs-gateway/src/buffer.rs:369-375 | Ok leaves no buffer; without a log every appended record is then stored exactly once |
| `Windows.AlignDownGreatest` | crates/s4logs-drain/src/window.rs:53-57 | the greatest grid boundary not after the timestamp, on the same UTC day |
| `Windows.NextBoundaryLeast` | crates/s4logs-drain/src/window.rs:60-65 | the next boundary follows immediately and is never past the day's end |
| `Windows.WindowWithinDay` | crates/s4logs-drain/src/window.rs:1-18 | no grid window crosses a UTC day |
| `Windows.GridTilesTime` | crates/s4logs-drain/src/window.rs:53-65 | every instant lies in exactly one grid window |
| `Windows.CompleteWindows` | crates/s4logs-drain/src/window.rs:69-87 | in order, exactly the grid windows with from < end <= to; errors exactly on bad input, and overflow exactly when the range touches the last 64-bit day |
| `Windows.CoveringWindows` | crates/s4logs-drain/src/window.rs:92-109 | in order, exactly the grid windows with end > from and start < until; errors exactly on bad input, and overflow exactly when the loop steps through the last 64-bit day |
| `Windows.DayEndFits` | crates/s4logs-drain/src/window.rs:60-63 | the day end is out of range exactly from the last 64-bit day on |
| `Windows.LastDayOverflows` | crates/s4logs-drain/src/window.rs:60-87 | an input at which the loop overflows |
| `Shards.PartitionStreams` | crates/s4logs-drain/src/shard.rs:43-62 | stream i is number i / n of shard i modulo n, and n is the least number that is as requested and keeps shards within the limit, but no more than the streams |
| `Shards.ShardSizes` | crates/s4logs-drain/src/shard.rs:43-62 | no shard is empty and none exceeds the API limit |
| `Shards.PartitionIsDisjointAndComplete` | crates/s4logs-drain/src/shard.rs:43-62 | shards are disjoint and together name every stream |
| `Shards.InterleavingKeepsEvents` | crates/s4logs-drain/src/shard.rs:95-111 | any interleaving of the shards' pages carries the same events |
| `Shards.ShardedPagingSeesSameEvents` | crates/s4logs-drain/src/shard.rs:65-111 | sharded paging returns the same multiset of events as unsharded, when all streams were listed |
| `Archive.ShardedDrainArchivesSame` | crates/s4logs-drain/src/job.rs:479-539 | a sharded and an unsharded drain of a window list objects that read back as the same multiset, the in-window events |
| `Drain.PiecesPartition` | crates/s4logs-drain/src/job.rs:277-292 | chunk rotation cuts the pushed records into non-empty pieces, losing and reordering none |
| `Drain.PiecesAreTight` | crates/s4logs-drain/src/job.rs:277-285 | every object but the last has reached the chunk target, and none had before its last record |
| `Drain.InWindowCounts` | crates/s4logs-drain/src/job.rs:484-496 | exactly the events of the half-open window are kept, each as often as it was returned |
| `Drain.WindowWriter.PutAll` | crates/s4logs-core/src/store.rs:304-333 | data, index and time index are put in order; a failure leaves exactly the earlier ones |
| `Drain.WindowWriter.PushRecord` | crates/s4logs-drain/src/job.rs:277-285 | pushing keeps the writer in step with the rotation of everything pushed |
| `Drain.WindowWriter.Flush` | crates/s4logs-drain/src/job.rs:296-334 | one more object with its manifest entry, counters and sequence number |
| `Drain.WindowWriter.Finish` | crates/s4logs-drain/src/job.rs:289-292 | all pieces are stored and listed, and the record count is the sum over listed objects |
| `Drain.PushPage` | crates/s4logs-drain/src/job.rs:479-512 | exactly the in-window events of a page are pushed, in order |
| `Drain.ProcessWindow` | crates/s4logs-drain/src/job.rs:445-539 | skipped exactly when covered; otherwise exactly a prefix of the window's PUT plan is issued, all of it precisely on completion, whatever the page cuts and wherever paging fails |
| `Keys.ObjKeyInjective` | crates/s4logs-drain/src/job.rs:205-225 | an object key determines window, base or attempt, and sequence number |
| `Keys.PieceSlotsDistinct` | crates/s4logs-drain/src/job.rs:296-334 | one run never puts the same object twice |
| `Keys.WindowsDisjoint` | crates/s4logs-drain/src/job.rs:205-225 | runs of different windows never put the same object |
| `Keys.StoredUnderItsDate` | crates/s4logs-drain/src/job.rs:247-265 | each data PUT of a drain or repair is the chunk of one piece, under a key that parses to the account, the group and the date of every record in the piece |
| `Keys.ManKeyParses` | crates/s4logs-core/src/layout.rs:164-180 | a manifest's key names its window and, if no earlier segment is tagged, its group |
| `Resume.StepKeepsInv` | crates/s4logs-drain/src/job.rs:414-539 | each PUT, start and crash of an attempt with its own order keeps every window untouched, in progress or complete, with exactly the objects its attempts reached |
| `Resume.RunKeepsInv` | crates/s4logs-drain/src/job.rs:414-539 | that holds after any run |
| `Resume.ListedReadBack` | crates/s4logs-drain/src/shard.rs:15-22 | the listed objects of a window that became covered read back as the multiset of its events, whatever the orders and interruptions |
| `Resume.ExactlyTheUninterrupted` | crates/s4logs-drain/src/job.rs:414-539 | a window is left as by one uninterrupted attempt exactly when no attempt reached beyond the completing one's object count |
| `Resume.InterruptedEqualsUninterrupted` | crates/s4logs-drain/src/job.rs:414-539 | interrupted and straight runs completing in the same orders leave the same store up to completion times, exactly when no object is left over |
| `ResumeOrders.OneOrderEndsAlike` | crates/s4logs-drain/src/job.rs:414-539 | with one order per window interrupted and straight runs always end alike |
| `ResumeOrders.OrdersDiffer` | crates/s4logs-drain/src/shard.rs:15-22 | six events that make three objects in one order and two in another |
| `ResumeOrders.LeftoverObject` | crates/s4logs-drain/src/shard.rs:15-22 | the run that leaves an unlisted object with two of the six events again |
| `ResumeOrders.StaleSidecars` | crates/s4logs-core/src/store.rs:304-333 | the run that leaves new data beside the old sidecars |
| `Resume.FurtherRunWritesNothing` | crates/s4logs-drain/src/job.rs:445-477 | a further run over a drained store writes nothing |
| `Archive.EntriesReadBack` | crates/s4logs-drain/src/job.rs:296-334 | listed objects read back as exactly the pushed records |
| `Archive.DrainReadsBack` | crates/s4logs-drain/src/job.rs:445-539 | the objects a completed drain lists read back as exactly what it pushed |
| `Archive.EntriesCount` | crates/s4logs-drain/src/job.rs:296-334 | listed record counts add up to the records |
| `Archive.EntriesDescribe` | crates/s4logs-drain/src/job.rs:296-330 | each manifest entry gives its object's length, text size, record count and exact time bounds |
| `Archive.AttemptIsFresh` | crates/s4logs-drain/src/reconcile.rs:571-597 | no object of the next attempt is already listed |
| `Reconcile.RepageStep` | crates/s4logs-drain/src/reconcile.rs:455-477 | an event is appended exactly when no record archived or appended before has its id hash or, having no id, its content hash |
| `Reconcile.RepageFills` | crates/s4logs-drain/src/reconcile.rs:448-486 | what a pass appends is part of the events, each new at its turn, and leaves every event with such a record |
| `Reconcile.RecognizedExactly` | crates/s4logs-drain/src/reconcile.rs:175-207 | without hash collisions an event is recognized by its id, or by timestamp, stream and message in a record without one |
| `Reconcile.DecodeListedExact` | crates/s4logs-drain/src/reconcile.rs:536-570 | a listed object decodes exactly when it is there, is within 64 GiB and its recorded size if any, and every line is a record |
| `Reconcile.SecondPassFindsNothing` | crates/s4logs-drain/src/reconcile.rs:448-486 | a pass over recognized events appends nothing |
| `Reconcile.CollectIdentities` | crates/s4logs-drain/src/reconcile.rs:404-427 | the identities of everything listed, by which exactly the events with a listed record are known; fails exactly when an object is missing or does not decode |
| `Reconcile.RepageAll` | crates/s4logs-drain/src/reconcile.rs:444-494 | exactly the events without a record at their turn are pushed, whatever the page cuts |
| `Reconcile.ReconcileWindow` | crates/s4logs-drain/src/reconcile.rs:393-533 | fails exactly on an unreadable object or used-up attempts; otherwise issues exactly a prefix of the plan that appends the events without a record, all of it when done |
| `Reconcile.SecondRepairIsIdle` | crates/s4logs-drain/src/reconcile.rs:393-533 | a second repair over the same events leaves the store alone, and fails exactly when attempts are used up or a written object is above the ceiling |
| `Reconcile.ProcessForReconcile` | crates/s4logs-drain/src/reconcile.rs:358-391 | no manifest drains, undecodable bytes fail, else repair; a complete pass leaves every in-window event a record of its id or content in readable listed objects |
| `Reconcile.RepairIsCompleteAndIdempotent` | crates/s4logs-drain/src/reconcile.rs:393-533 | the repaired manifest lists old records plus exactly the events without one, counts agree, every event has a record, a second repair changes nothing |
| `Reconcile.RepairAddsUp` | crates/s4logs-drain/src/reconcile.rs:500-520 | a repair keeps the manifest's identity and counts what it appended in the total and over all repairs |
| `Retention.PlanRetention` | crates/s4logs-drain/src/retention.rs:59-110 | the cutoff is the retention before now; every window with an instant to expire is required and none that starts within the retention; missing are exactly those not covered when fetched; errors exactly on bad input |
| `Retention.EnforceRetention` | crates/s4logs-drain/src/retention.rs:117-145 | the policy is issued only when asked and only if every instant it expires lies in a window that was seen covered |
| `Retention.StepKeepsInv` | crates/s4logs-drain/src/manifest.rs:119-149 | drain and repair PUTs, repairs that find nothing missing, crashes and stray bytes keep every covered window readable |
| `RetentionSafety.DrainCanComplete` | crates/s4logs-drain/src/job.rs:414-539 | from every reachable state an idle uncovered window can be drained, so the gate can open |
| `RetentionSafety.ListedNeverOverwritten` | crates/s4logs-drain/src/reconcile.rs:429-442 | no PUT of any reachable state targets an object listed in a valid manifest |
| `RetentionSafety.ListingOnlyGrows` | crates/s4logs-drain/src/job.rs:445-539 | in a run without stray bytes on its key a covered window stays covered, its listing grows, and every listed object keeps its bytes |
| `RetentionSafety.NothingReturnedIsLost` | crates/s4logs-drain/src/job.rs:445-477 | in such a run a window is drained at most once and everything ever returned for it is readable or known |
| `RetentionSafety.LostExactlyByStrayBytes` | crates/s4logs-drain/src/job.rs:461-477 | the next step is safe for what was returned if and only if it puts no stray bytes on the window's key |
| `RetentionSafety.OneEventLost` | crates/s4logs-drain/src/job.rs:461-477 | the losing run at an input |
| `RetentionSafety.CoveredIsReadable` | crates/s4logs-drain/src/manifest.rs:133-149 | even with stray bytes a covered window reads back as at least the last drain that covered it |
| `RetentionSafety.ExpiredEventsAreArchived` | crates/s4logs-drain/src/retention.rs:59-145 | when every fetch of the gate saw coverage, the window of every instant more than the retention before now was drained once and all that was ever returned for it is readable or recognized |
| `Layout.SanitizeLogGroup` | crates/s4logs-core/src/layout.rs:27-38 | the loop percent-encodes byte by byte |
| `Layout.UnsanitizeLogGroup` | crates/s4logs-core/src/layout.rs:43-60 | the loop decodes, or fails on a bad escape or invalid text |
| `Layout.SanitizeRoundTrip` | crates/s4logs-core/src/layout.rs:27-60 | unsanitize inverts sanitize on every group name |
| `Layout.UnsanitizeRoundTrip` | crates/s4logs-core/src/layout.rs:43-60 | sanitize inverts unsanitize exactly on canonical text |
| `Layout.LowerCaseEscape` | crates/s4logs-core/src/layout.rs:43-60 | lower-case escapes are read too |
| `Layout.SanitizeHasNoSeparator` | crates/s4logs-core/src/layout.rs:25-38 | no slash or equals sign survives |
| `Layout.SanitizeKeepsPlain` | crates/s4logs-core/src/layout.rs:25-38 | text is left as it is exactly when it consists of letters, digits, underscores, dots and dashes |
| `Layout.PrefixIsTrimmed` | crates/s4logs-core/src/layout.rs:62-71 | slashes around a prefix make no difference; it ends in exactly one |
| `Layout.DataKeyRoundTrip` | crates/s4logs-core/src/layout.rs:92-148 | parsing a data key gives the location back exactly when its parts hold no slash |
| `Layout.DataKeyInjective` | crates/s4logs-core/src/layout.rs:92-108 | different slash-free locations have different keys |
| `Layout.KeyKindsDisjoint` | crates/s4logs-core/src/layout.rs:105-180 | data, sidecar and manifest keys never coincide; sidecar keys follow their data key |
| `Layout.ManifestKeyWindowRoundTrip` | crates/s4logs-drain/src/manifest.rs:154-162 | a manifest key reads back its window exactly when the start is not negative |
| `Layout.ManifestKeyGroupRoundTrip` | crates/s4logs-drain/src/manifest.rs:179-183 | a manifest key reads back its log group exactly when no earlier segment is tagged, or that one names the same group |
| `Layout.TaggedPrefixHidesGroup` | crates/s4logs-drain/src/manifest.rs:179-183 | a prefix under which the group is not read back |
| `Layout.ManifestKeyInjective` | crates/s4logs-core/src/layout.rs:164-180 | a manifest key determines account, group and window |
| `Layout.ObjectNameInjective` | crates/s4logs-drain/src/job.rs:205-225 | an object name determines start, base or attempt, and sequence number |
| `Layout.NamesSortBySequence` | crates/s4logs-drain/src/job.rs:205-225 | the objects of one drain sort by name in the order they were written, up to a million |
| `Layout.NextAttempt` | crates/s4logs-drain/src/reconcile.rs:574-597 | one above the highest attempt among the listed names, 1 if there is none |
| `Layout.AttemptReadBack` | crates/s4logs-drain/src/reconcile.rs:574-597 | the scan reads an attempt back exactly from four-digit sequence numbers |
| `Layout.NextAttemptIsFresh` | crates/s4logs-drain/src/reconcile.rs:574-597 | a key of an attempt above all scanned ones is not listed |
| `Layout.LongSequenceIsInvisible` | crates/s4logs-drain/src/reconcile.rs:586-592 | a five-digit sequence number hides its attempt |
| `Sorting.StableSortUnique` | crates/s4logs-cli/src/scan.rs:230-240 | a sorted sequence with the same ties in the same order is the stable sort: the reference is well chosen |
| `Common.StrLeMeans` | crates/s4logs-cli/src/scan.rs:245-271 | strings compare by their first difference, or by length if there is none |
| `Merge.KWayMerge.Refill` | crates/s4logs-cli/src/scan.rs:299-310 | skips empty batches until a head or the end, changing no pending record of any source |
| `Merge.KWayMerge.NextIndexed` | crates/s4logs-cli/src/scan.rs:315-327 | emits the first element of the stable sort of what is left, with its source; None exactly at the end |
| `Merge.LeastHeadFirst` | crates/s4logs-cli/src/scan.rs:245-271 | the least head, lowest source on ties, is the first of the stable sort |
| `Merge.MergeAll` | crates/s4logs-cli/src/scan.rs:275-328 | terminates, and equals the stable sort of the tagged concatenation for any batch cuts |
| `Clusters.ClusterSpans` | crates/s4logs-cli/src/scan.rs:213-226 | the loop groups the spans sorted by start |
| `Clusters.ClustersPartition` | crates/s4logs-cli/src/scan.rs:204-226 | clusters are non-empty, partition the input, and later ones lie strictly later |
| `Clusters.ClustersAreComponents` | crates/s4logs-cli/src/scan.rs:204-226 | two frames share a cluster exactly when they are connected by overlaps |
| `ScanObject.PruningIsSafe` | crates/s4logs-core/src/read.rs:49-73 | frames outside the range hold no matching record |
| `ScanObject.PruningExact` | crates/s4logs-core/src/read.rs:15-73 | a frame is fetched exactly when some instant of the range lies within its bounds |
| `ScanObject.SelectFilters` | crates/s4logs-cli/src/scan.rs:99-105 | the filter keeps exactly the records in range whose message the pattern accepts, each as often as it occurs |
| `ScanObject.ReadableMeans` | crates/s4logs-cli/src/scan.rs:116-170 | reading fails exactly when a frame that meets the range is over 64 GiB or, without an index, the object over 2 GiB |
| `ScanObject.CrlfLine` | crates/s4logs-cli/src/scan.rs:130-165 | a line may end in carriage return and newline, and a blank one is skipped |
| `ScanObject.FetchCluster` | crates/s4logs-cli/src/scan.rs:352-427 | a cluster yields the stable sort of its matching records; fails exactly when a frame is over the ceiling |
| `ScanObject.StreamFullObject` | crates/s4logs-cli/src/scan.rs:116-170 | the fallback decodes line by line, keeps the matching records, and fails exactly over its cap |
| `ScanObject.BatchesAscend` | crates/s4logs-cli/src/scan.rs:232-240 | the batches of one object meet the merge contract |
| `ScanObject.PlanIsRight` | crates/s4logs-cli/src/scan.rs:351-428 | pruning and clustering together give exactly the matching records, sorted |
| `TieOrder.PruningKeepsOrder` | crates/s4logs-core/src/read.rs:49-73 | pruning drops nothing that matches and reorders nothing |
| `TieOrder.BatchesAreOneSort` | crates/s4logs-cli/src/scan.rs:213-226 | the batches of an indexed object are one stable sort of its frames taken by (minimum, index) |
| `TieOrder.InOrderKeepsArrival` | crates/s4logs-cli/src/scan.rs:230-240 | with an index in order, reading through it is the stable sort of arrival order |
| `TieOrder.TieOrderExact` | crates/s4logs-cli/src/scan.rs:230-240 | an index guarantees arrival order among ties for all objects with it if and only if no two frames clash |
| `TieOrder.SwappedTie` | crates/s4logs-cli/src/scan.rs:213-226 | the swapped tie at an input |
| `ObjectReader.ReadObject` | crates/s4logs-cli/src/scan.rs:351-428 | indexed or not, an object yields exactly its matching records as one stable sort of reading order, which is arrival order when the index is in order |
| `ObjectReader.ForeignSidecarsLose` | crates/s4logs-core/src/store.rs:266-273 | sidecars of another object load and prune a matching record away without an error |
| `Scan.DatesExact` | crates/s4logs-cli/src/scan.rs:88-98 | a date is listed exactly when some instant of the range falls on it |
| `Scan.ListRangeChunks` | crates/s4logs-cli/src/scan.rs:484-528 | narrow and wide listing return the same objects: those of the group whose UTC day meets the range, by date and name |
| `Scan.ListingHoldsGroupMatches` | crates/s4logs-cli/src/scan.rs:484-528 | the listed objects hold every matching record of the group |
| `Scan.BuildGroupSources` | crates/s4logs-cli/src/scan.rs:533-617 | the sources of a group ascend and hold, tie by tie, the listed objects in reading order |
| `Scan.OpenScan` | crates/s4logs-cli/src/scan.rs:627-653 | sources of all groups in order, each tagged with its own group |
| `Scan.ScanLogGroups` | crates/s4logs-cli/src/scan.rs:660-676 | a record occurs with a chosen group as often as the group's decoded objects hold it if it is in range and its message passes, and never otherwise; the output is the stable sort by (timestamp, stream) of group, date, name and reading order, and of arrival order when every index is in order |
| `DrainScan.StoredObjectIsPiece` | crates/s4logs-core/src/store.rs:304-333 | in every state of drains with one order per window a stored object holds its piece, its sidecars missing or its own |
| `DrainScan.DrainedArchiveIsSound` | crates/s4logs-drain/src/job.rs:414-539 | any listing of the group's stored objects, group, date and name read off their keys, is sound for the scan |
| `DrainScanExact.ScansExactly` | crates/s4logs-cli/src/scan.rs:484-676 | for interrupted drains in any orders: the archive is sound and the scan is due exactly the matching events, each once, if and only if no object is left over |
| `DrainScanExact.DrainThenScan` | crates/s4logs-drain/src/shard.rs:15-22 | with one order per window it always is |
| `DrainScan.StaleSidecarsLose` | crates/s4logs-core/src/store.rs:266-333 | a run after which the scan prunes an object that holds a matching event |
| `Restore.EventBatcher.Push` | crates/s4logs-cli/src/commands/restore.rs:198-213 | emits the open batch exactly when the event would break a limit |
| `Restore.EventBatcher.Finish` | crates/s4logs-cli/src/commands/restore.rs:216-218 | the last batch, if there is one |
| `Restore.DriveBatcher` | crates/s4logs-cli/src/commands/restore.rs:187-219 | streaming all events gives the greedy split |
| `Restore.SplitBatches` | crates/s4logs-cli/src/commands/restore.rs:225-247 | the reference ranges denote the same split |
| `Restore.GreedyCovers` | crates/s4logs-cli/src/commands/restore.rs:187-247 | batches concatenate to the input |
| `Restore.GreedyWithinLimits` | crates/s4logs-cli/src/commands/restore.rs:152-247 | every batch respects count, bytes and span |
| `Restore.LimitsAre` | crates/s4logs-cli/src/commands/restore.rs:32-37 | the limits: 10,000 events, 1 MiB of text and 26 bytes an event, 24 hours |
| `Restore.BatchingIsOptimal` | crates/s4logs-cli/src/commands/restore.rs:152-247 | no contiguous limit-respecting split uses fewer batches |
| `Calendar.MarchStep` | crates/s4logs-gateway/src/auth.rs:319-327 | the day count grows by a year's length, with the century rules, across eras |
| `Calendar.NextDayCounts` | crates/s4logs-gateway/src/auth.rs:319-327 | 0 at 1970-01-01 and one more from each valid date to the next |
| `Calendar.CountIsOrderIsomorphism` | crates/s4logs-gateway/src/auth.rs:319-327 | dates are ordered as their counts |

## Left out

- AWS SDK calls, HTTP handlers, metrics, progress events, argument parsing and retry delays: plumbing around the modelled logic.
- zstd, JSON, CRC32C, regex and calendar libraries: parameters with the stated hypotheses.
- Signature verification other than `days_from_civil`, and collision freedom of the identity hash.
- Pricing, reports and plans: floating-point estimates.
- `coalesce_spans`: not used by the scan.
- Storage class, etag, checksum and version fields of manifests.
- Dry runs: they issue no PUT.
- Routing, the registry and listing of all groups: single lookups.
- Failure to fsync a directory: a created segment is taken to stay.
- The S4IX byte format belongs to another crate; the model keeps its entries.
- Compression failures in the drain's window writer: they end the run as a failed PUT does.
- Scan.ScanLogGroups: fetches objects when the source opens instead of on demand, so the number of requests and partial output before an error are not modelled.
- Wal.ScanDir: takes the segment files already filtered by suffix, sorted by name and read; a read error ends the replay before any step.
- TieOrder.TieOrderExact: the objects of its converse have the given index but need not be frames that one writer with one frame target would cut.
- DrainScanExact.ScansExactly: covers the objects drains write, not those a repair appends.
- Frame boundaries after a failed frame cut in the gateway: the model cuts as if it had succeeded.
- BufferManagers.BufferManager.PushEvents: no other task acts between its critical sections; all interleavings are covered by the step machine.
- GatewayDurability.AcknowledgedNeverLost: takes a failed append as leaving no bytes behind; `AppendAfterPartialWrite` states what happens otherwise.
- RetentionSafety.ExpiredEventsAreArchived: states repaired events by identity, not by content, as the repair itself does.
