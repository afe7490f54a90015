# A verified model of the BKK collector's storage protocols

The collector polls three realtime transit feeds and must lose nothing and duplicate nothing,
whatever crashes, raises or is torn on the way. This project models the protocols that carry that
promise, each as a state machine with explicit steps, and proves what every run of them keeps.

| file | what it models |
|---|---|
| `RawLog.dfy` | the framed append log: torn appends, checkpoints, tail repair |
| `FrameReader.dfy` | the public exporter's caching reader of that log, against its writers |
| `PollJournal.dfy` | the JSONL poll journal and its repair |
| `ChangeTracker.dfy`, `TrackerClock.dfy` | the memory-bounded change tracker; which clock readings it is right for |
| `TrackerDurable.dfy` | what the rows on disk say, when staging and committing can raise separately |
| `Presence.dfy`, `PresenceLogs.dfy` | the trip presence delta stream, its replay and the manifest's stream check; the stream on its files, torn tails included |
| `Scheduler.dfy` | the independent feed scheduler, all thread interleavings |
| `SpoolCodec.dfy` | shared strings in spool segments |
| `PartitionState.dfy`, `PartitionSteps.dfy` | one (feed, date) partition: segments, markers, Parquet files, compaction; its atomic steps |
| `ParquetStore.dfy`, `ParquetCompact.dfy` | staging, recovery, commit and flush; compaction |
| `Retention.dfy` | backup receipts and pruning |
| `Collector.dfy` | the processing of one poll and its evidence |
| `Ledger.dfy` | the collector and a partition running together |
| `Publish.dfy` | conditional publication in the Worker |
| `Timeline.dfy` | static versions, at an instant and over a range |
| `Quantile.dfy` | the histogram quantile |

Conventions. Each component has functions that say what an operation does to a value of its state,
methods (mostly of a class with the source's fields) proved to do exactly that, and lemmas about runs.
How far an operation gets is a parameter (`fate`, `luck`): how many bytes of an append arrive, which
write is the last one before an exception or a crash, what other threads or processes do in between.
A file system is a map from names to contents; `os.replace`, `unlink` and atomic writes are single
steps (`bkk_collector/storage/atomic_io.py:35-55`). Times are integers or reals. A SHA-256 digest
stands for what it was taken of. gzip and JSON parsing are parameters with stated laws.

Six promises turn out to need a condition, and the model says which:

* **Auxiliary state.** Three branches put a new auxiliary state into the raw log without noting it: the
  late archive call after a failed journal append (`bkk_collector/collector.py:665-666`), an archive
  append that raised although its record had arrived whole (`bkk_collector/storage/raw_log.py:46-57`), and
  an exception while the digest is taken, after the archive call (`bkk_collector/collector.py:496-506`). A
  following poll that brings the noted state back is then neither archived nor flagged
  (`Collector.LateArchiveSkipsAState`, `Collector.UnreportedArchiveSkipsAState`, and for any state and
  branch `Collector.UnnotedSkipsAState`). A poll keeps the signature in step if and only if it takes none
  of them with a changed state (`Collector.SyncKeptIff`), and over any run that takes none no state is
  skipped (`Collector.RunKeepsSync`).
* **Repair of a damaged raw log.** The reader skips a payload that does not decompress and reads on, repair
  detaches everything from there. What the reader found is then in the file and the sidecar together; the
  file alone still yields all of it if and only if nothing behind the cut can be read
  (`RawLog.RepairMovesRecords`, `RawLog.RepairHidesRecords`). No run of the collector makes such a file
  (`RawLog.RunReadsBack`).
* **Presence logs at midnight.** An observation repairs its own date's file only, so an append cut short
  as the last one of a date leaves that date rejected by the manifest check until a restart visits it
  (`PresenceLogs.TornBeforeMidnight`, `PresenceLogs.TornStays`). In every run a date is accepted if and
  only if its file has no torn tail left (`PresenceLogs.AcceptedIffNotTorn`).
* **The last row on disk.** A stage can put its rows on disk and then raise, or the commit after it can
  raise part-way (`bkk_collector/collector.py:546-553`, `bkk_collector/storage/atomic_io.py:35-51`). The
  tracker then still compares with an older row, and a later poll that brings that row back writes
  nothing, while the disk says otherwise (`TrackerDurable.LandedRowHides`). For given times, fates and
  restarts the last row on disk represents every observed row of every poll that was staged and committed
  if and only if no poll of one unbroken day and process committed something that still speaks, less than
  a heartbeat old and not expired, at such a poll, after rows landed uncommitted in between
  (`TrackerDurable.RepresentedIffTruthful`). While no stage raises late nothing is hidden, and a restart ends
  the hiding.
* **Tied check times.** With two checks at one time the pointwise lookup names the first and the
  timeline the last (`Timeline.TiesDisagree`). They agree on a whole range if and only if first and
  last found the same version at every check time inside it (`Timeline.AgreeIffTiesAgree`).
* **A clock that goes back within a day** can make the expiring tracker emit a row the unbounded one
  would not (`ChangeTracker.BackwardClockDiverges`). The two agree on all rows and commits if and
  only if, within every unbroken day, what an expiry has dropped is still a heartbeat old at every later
  poll (`TrackerClock.AgreeIffCalm`, a condition on the clock readings alone); time that does not go back
  meets it (`TrackerClock.OrderedIsCalm`).

One more: a segment with both a large string and a JSON object that looks like a shared-string
reference would not read back; `SpoolCodec.WriteAndRead` states that condition exactly. Parsed rows hold
no objects.

## Model

| member | source | states |
|---|---|---|
| `RawLog.PackRoundTrip` | bkk_collector/storage/raw_log.py:30 | the 32-bit length of a header has its most significant byte first and reads back as it was packed |
| `RawLog.ScanRawLogFrom` | bkk_collector/storage/raw_log.py:91-118 | the scan finds the end of the last complete valid record, counts the records, and is clean exactly when nothing follows |
| `RawLog.IterRecords` | bkk_collector/storage/raw_log.py:60-80 | yields the decompressible records, in order, up to the first cut or refused one |
| `RawLog.ScanEncoded` | bkk_collector/storage/raw_log.py:91-118 | on whole frames followed by a torn one, from any record boundary, scan and reader find exactly the remaining records |
| `RawLog.ScanFromBoundary` | bkk_collector/storage/raw_log.py:168-192 | in any file, scanning from a record boundary ends where scanning the whole file ends |
| `RawLog.RawLogFile.AppendRecord` | bkk_collector/storage/raw_log.py:38-57 | how file and checkpoint change for every number of bytes that arrive and every failure after; success is reported exactly when the payload is not too large, all of it arrived and was synced, and the checkpoint was written |
| `RawLog.RawLogFile.RepairTruncatedTail` | bkk_collector/storage/raw_log.py:121-165 | the effect of repair for every point it can stop at |
| `RawLog.RepairLosesNoByte` | bkk_collector/storage/raw_log.py:146-165 | for any file, wherever repair stops, the file keeps a prefix and the rest is still there or whole in a sidecar |
| `RawLog.RepairMovesRecords` | bkk_collector/storage/raw_log.py:60-165 | in any file checked from a record boundary, where repair cuts, the records readable before are those readable in the file and in the sidecar; the file alone keeps them all if and only if nothing behind the cut can be read |
| `RawLog.RepairHidesRecords` | bkk_collector/storage/raw_log.py:60-165 | a file with a readable record behind a payload that does not decompress, which repair takes out of the file |
| `RawLog.RepairKeepsRecords` | bkk_collector/storage/raw_log.py:121-165 | repair keeps exactly the complete records and, when it does not fail, nothing else |
| `RawLog.AppendExtendsRecords` | bkk_collector/storage/raw_log.py:38-57 | an append adds its record when all bytes arrive and otherwise leaves one torn tail |
| `RawLog.RunReadsBack` | bkk_collector/storage/raw_log.py:38-192 | over every run of torn appends, crashes, repairs and retries the log reads back the completed appends in order, and a scan from the checkpoint agrees with a full scan |
| `RawLog.CommittedBytesStay` | bkk_collector/storage/raw_log.py:53-57 | the checkpoint never goes back and no byte below it ever changes |
| `FrameReader.LatestVehicleFrame.WalkHeaders` | public_exporter/source.py:73-84 | the seek loop finds the last frame up to the checkpoint or refuses |
| `FrameReader.LatestVehicleFrame.Read` | public_exporter/source.py:49-99 | one read, with files and checkpoint looked up at different moments, and what it remembers afterwards; a file with another inode is read from the start |
| `FrameReader.CachedReadIsFresh` | public_exporter/source.py:69-96 | a reader whose memory is right answers as one that starts from byte zero, and its memory is right again, also after a refusal |
| `FrameReader.WalkStops` | public_exporter/source.py:73-84 | a walk of the headers that reaches its end has not entered a torn frame |
| `FrameReader.WalkRecords` | public_exporter/source.py:73-84 | walking whole records finds the last of them, or refuses if one has no finite timestamp, an empty or too large payload |
| `FrameReader.FreshReadIsNewest` | public_exporter/source.py:73-99 | a read from byte zero returns the timestamp and the decompressed payload of the newest record below the checkpoint |
| `FrameReader.ReadsAreFresh` | public_exporter/source.py:49-99 | for every interleaving with appends, torn tails, repairs, checkpoints and replaced files in all partitions the caching reader returns or refuses as a fresh one; unless the file was replaced meanwhile, that is the newest record up to the checkpoint, and a refusal exactly when there is none or one cannot be served |
| `PollJournal.LastLineStart` | bkk_collector/storage/poll_journal.py:34-49 | the backward search by 4096-byte blocks finds the start of the last line of any file |
| `PollJournal.LineStartUnique` | bkk_collector/storage/poll_journal.py:34-49 | there is only one position that is the start of the last line |
| `PollJournal.Journal.RepairJsonlTail` | bkk_collector/storage/poll_journal.py:52-104 | the effect of repair for every point it can stop at, interior corruption refused unchanged |
| `PollJournal.Journal.AppendPollJsonl` | bkk_collector/storage/poll_journal.py:107-110 | repair, then one line, then the checkpoint; success exactly when all of it happened, and then the file ends with the line and the checkpoint with the file |
| `PollJournal.RepairLosesNoEvent` | bkk_collector/storage/poll_journal.py:52-104 | for any journal, whoever wrote it, without a usable checkpoint or with one on a line boundary: wherever repair stops, the events read from the whole file are the same before and after; interior corruption changes nothing, a cut line is whole in the sidecar |
| `PollJournal.MidLineCheckpointLosesEvent` | bkk_collector/storage/poll_journal.py:60-98 | a checkpoint inside a line would lose that line's event |
| `PollJournal.SeparatorKeepsEvents` | bkk_collector/storage/poll_journal.py:93-100 | completing an event that lost only its separator keeps every event |
| `PollJournal.CutKeepsEvents` | bkk_collector/storage/poll_journal.py:82-98 | cutting an invalid final line removes no event and leaves whole valid lines |
| `PollJournal.RunReadsBack` | bkk_collector/storage/poll_journal.py:52-110 | over every run of torn appends, crashes and repairs the journal reads back the events that arrived, in order; repair never meets interior corruption, and the checkpoint covers whole valid lines |
| `ChangeTracker.ChangeTracker.ExpireHeartbeatEntries` | bkk_collector/realtime/dedup.py:96-105 | drops exactly the entries a heartbeat old, at most once a step |
| `ChangeTracker.ChangeTracker.NumericChanged` | bkk_collector/realtime/dedup.py:107-119 | true unless every numeric field stays null or within its own tolerance |
| `ChangeTracker.ChangeTracker.Filter` | bkk_collector/realtime/dedup.py:121-174 | the rows selected with an overlay of this poll, or the signal error, and the tracker afterwards |
| `ChangeTracker.ChangeTracker.Commit` | bkk_collector/realtime/dedup.py:176-182 | the tracker after the selected rows were staged |
| `ChangeTracker.CommitIsOverlay` | bkk_collector/realtime/dedup.py:169-182 | committing the selected rows is applying the overlay |
| `ChangeTracker.SelectThenCommitIsUpdate` | bkk_collector/cli/rebuild_parquet.py:145 | selecting and then committing leaves the tracker that selecting with update leaves |
| `ChangeTracker.SignalErrorIff` | bkk_collector/realtime/dedup.py:130-147 | a poll raises the signal error exactly when it has rows, none with a required field set, and the rows since the last poll with one are as many as the guard allows |
| `ChangeTracker.ForgettingIsInvisible` | bkk_collector/realtime/dedup.py:96-182 | over any run in which time does not go back within a day, the expiring overlay tracker emits exactly what an unbounded copying one does, and keeps nothing older than a heartbeat and one expiry step |
| `ChangeTracker.BackwardClockDiverges` | bkk_collector/realtime/dedup.py:96-105 | a run in which time goes back within a day and the two differ |
| `TrackerClock.CalmIsInvisible` | bkk_collector/realtime/dedup.py:96-182 | on calm clock readings the expiring tracker emits exactly what the unbounded one does, whatever is committed |
| `TrackerClock.AgreeIffCalm` | bkk_collector/realtime/dedup.py:96-182 | for given clock readings, the two agree on all rows and commits if and only if the readings are calm |
| `TrackerClock.OrderedIsCalm` | bkk_collector/realtime/dedup.py:96-105 | readings that do not go back within a day are calm |
| `TrackerDurable.RunStems` | bkk_collector/realtime/dedup.py:120-182 | whatever the tracker remembers was committed by an earlier poll of the same day and process and is the last row of its key on disk, unless rows landed uncommitted since |
| `TrackerDurable.EveryRowIsRepresented` | bkk_collector/realtime/dedup.py:150-182 | for every row of a poll that was staged and committed, unless some poll hides another before it and whatever the clock and restarts do, the last row of its key on disk when it was handled has the same key and exact fields, numbers in the same fields, each no further away than its field's own tolerance or else the common one, and was written in this poll or less than a heartbeat ago |
| `TrackerDurable.LastDurableRepresents` | bkk_collector/realtime/dedup.py:150-182 | after such a poll the last row on disk of any key in it represents the last row of that key |
| `TrackerDurable.MustWriteMeaning` | bkk_collector/realtime/dedup.py:107-172 | a row is left out exactly when its exact fields are equal to and its numbers within tolerance of the row remembered for its key, which is younger than a heartbeat |
| `TrackerDurable.WrittenIffNews` | bkk_collector/realtime/dedup.py:150-182 | in a run, the first row of its key in a poll goes to the disk exactly when it is not close to the last row written for that key or a heartbeat has passed since, while that row has not expired |
| `TrackerDurable.RepresentedIffTruthful` | bkk_collector/collector.py:540-553 | for given times, fates and restarts, every row of every kept poll is represented whatever rows arrive, if and only if no poll hides another |
| `TrackerDurable.RowIsHidden` | bkk_collector/collector.py:540-553 | wherever the condition fails, rows exist with which the disk's last row of a key is another and nothing is written |
| `TrackerDurable.LandedRowHides` | bkk_collector/collector.py:540-553 | three polls after which the last row on disk is not the one observed |
| `Presence.ApplyPresenceRecord` | bkk_collector/realtime/tripupdate_presence.py:35-70 | replays one record onto a membership, or refuses it for its version, its identity fields or its contents |
| `Presence.CurrentMeaning` | bkk_collector/realtime/tripupdate_presence.py:136-147 | the observed membership is the trips named by rows, each with the stops of its rows |
| `Presence.StampMeaning` | bkk_collector/realtime/tripupdate_presence.py:136-147 | the observed timestamp of a trip is that of the last row that names it; a trip no row names has none |
| `Presence.StopCountMeaning` | bkk_collector/realtime/tripupdate_presence.py:175 | the stop count is the sum over the trips |
| `Presence.ApplyChangeMeaning` | bkk_collector/realtime/tripupdate_presence.py:45-67 | a change is applied exactly when it fits the membership before it, and then changes that trip as it says and no other |
| `Presence.TripUpdatePresence.Observe` | bkk_collector/realtime/tripupdate_presence.py:127-198 | the record of one observation describes the change from what is remembered; only its date's file is repaired and appended to; what is remembered advances only after a reported append |
| `Presence.TripUpdatePresence.Store` | bkk_collector/realtime/tripupdate_presence.py:181-189 | one file is repaired and then appended to, for every point at which either can stop |
| `Presence.WrittenMeaning` | bkk_collector/realtime/tripupdate_presence.py:181-192 | an observation counts as written exactly when the repair did not raise, all bytes arrived and were synced, and the checkpoint was written |
| `Presence.TripUpdatePresence.Differences` | bkk_collector/realtime/tripupdate_presence.py:148-166 | the changes and timestamp updates listed are exactly the trips that differ |
| `Presence.DiffMeaning` | bkk_collector/realtime/tripupdate_presence.py:151-166 | a trip is listed exactly when it came, went, or has other stops, with the stops that are new and those that are gone |
| `Presence.StampDiffMeaning` | bkk_collector/realtime/tripupdate_presence.py:157-160 | a timestamp is listed exactly for a trip that is new to the stream or has another one |
| `Presence.DiffReplays` | bkk_collector/realtime/tripupdate_presence.py:45-67 | applying the differences to the old membership gives the new one |
| `Presence.StampsReplay` | bkk_collector/realtime/tripupdate_presence.py:73-103 | applying withdrawals and updates to the old timestamps gives the new ones |
| `Presence.PresenceStats` | bkk_collector/archive/manifests.py:58-94 | the manifest's stream check accepts exactly the files without a torn tail whose records load, replay and hold every promised observation |
| `Presence.RecordReplays` | bkk_collector/archive/manifests.py:68-88 | a record the writer may produce is accepted and replays to exactly what was observed |
| `Presence.MissingRecordRefused` | bkk_collector/archive/manifests.py:68-75 | without the record before a delta a log is refused, as long as stream ids are not used twice |
| `Presence.RepeatedPollRefused` | bkk_collector/archive/manifests.py:84-88 | a poll recorded twice is refused |
| `Presence.EveryPromiseIsKept` | bkk_collector/realtime/tripupdate_presence.py:123-198 | for any run with gaps, restarts, midnights, lost appends and appends reported as failed that reached the disk, the complete records of every date replay and hold each promised observation's place, membership and timestamps |
| `PresenceLogs.RecentPartitionFiles` | bkk_collector/storage/poll_journal.py:14-27 | today's file and the latest earlier one, of those that exist |
| `PresenceLogs.RecoverRecent` | bkk_collector/collector.py:278-286 | startup repairs exactly those files, each on its own |
| `PresenceLogs.RunFollowsMethods` | bkk_collector/realtime/tripupdate_presence.py:181-189 | ties the runs to the methods: by definition the files of a run change through the very functions that specify `Store` and `RecoverRecent` |
| `PresenceLogs.StoreAndTail` | bkk_collector/realtime/tripupdate_presence.py:181-189 | an observation's file ends in part of a record if and only if the append arrived in part, or the repair did not get round to cutting an older part |
| `PresenceLogs.AcceptedIffNotTorn` | bkk_collector/archive/manifests.py:66-94 | in any run on the files, with appends and repairs cut short anywhere, a date is accepted if and only if no torn tail is left in its file; torn or not, it reads back every record that arrived whole |
| `PresenceLogs.TornStays` | bkk_collector/realtime/tripupdate_presence.py:185-186 | only an observation of the date itself or a restart that visits it cuts its torn tail |
| `PresenceLogs.TornBeforeMidnight` | bkk_collector/archive/manifests.py:66-70 | a run after which a date is rejected, and accepted after the next restart |
| `Scheduler.DueCountMeaning` | bkk_collector/realtime/realtime_scheduler.py:130-131 | the due count is the number of deadlines that have come, the last of them less than one interval ago |
| `Scheduler.IndependentFeedScheduler.StepLocked` | bkk_collector/realtime/realtime_scheduler.py:89-158 | the critical section: every collectable result, then every due deadline, feed by feed |
| `Scheduler.IndependentFeedScheduler.SubmitOne` | bkk_collector/realtime/realtime_scheduler.py:125-158 | one feed's deadlines become misses, or coalesced misses and one request |
| `Scheduler.IndependentFeedScheduler.PutNowait` | bkk_collector/realtime/realtime_scheduler.py:160-162 | one result enters the queue, unless the queue is full |
| `Scheduler.IndependentFeedScheduler.Get` | bkk_collector/realtime/realtime_scheduler.py:186-190 | takes the oldest queued result, or nothing |
| `Scheduler.IndependentFeedScheduler.Acknowledge` | bkk_collector/realtime/realtime_scheduler.py:192-198 | clears the pending mark only of the result it belongs to |
| `Scheduler.IndependentFeedScheduler.StopAndDrain` | bkk_collector/realtime/realtime_scheduler.py:229-257 | stops submissions, finishes the running requests and returns everything collected |
| `Scheduler.RoomForAll` | bkk_collector/realtime/realtime_scheduler.py:160-162 | queued, collected and held results together are never more than the feeds, so a put never meets a full queue |
| `Scheduler.NextKeepsInv` | bkk_collector/realtime/realtime_scheduler.py:89-198 | every atomic step of any thread keeps the accounts of every feed and one unacknowledged result a feed |
| `Scheduler.EveryInterleaving` | bkk_collector/realtime/realtime_scheduler.py:125-158 | for all interleavings: requests leave in order, each once, with the lag and the misses they were submitted with; submitted is completed plus outstanding; next deadline is start plus (submitted + missed) intervals; every miss is attached once; the lag of every result and of the running request is below one interval |
| `Scheduler.StepAdvances` | bkk_collector/realtime/realtime_scheduler.py:128-132 | after an accepting step every feed's next deadline is in the future |
| `Scheduler.SubmitMeaning` | bkk_collector/realtime/realtime_scheduler.py:125-158 | a due deadline moves on by the least number of intervals into the future; without a running request the last one due becomes a request with its lag and the misses before it, otherwise all are misses; nothing else happens |
| `Scheduler.StepSubmitsDue` | bkk_collector/realtime/realtime_scheduler.py:89-158 | an accepting step leaves every due feed with a new request, if it had none or its last one is finished and the result before that is acknowledged |
| `Scheduler.EveryOutcomeIsItsOwn` | bkk_collector/realtime/realtime_scheduler.py:96-124 | for all interleavings a feed's results hold exactly what its workers came to, value or error, in order, each once |
| `Scheduler.EveryRequestIsDelivered` | bkk_collector/realtime/realtime_scheduler.py:229-257 | after any interleaving, draining leaves each feed's delivered results equal to its submitted requests, in order, each once, with exactly what their workers came to |
| `SpoolCodec.ShareLargeStrings` | bkk_collector/storage/spool_codec.py:12-30 | large text is replaced by a reference to the one copy in the shared list, which holds nothing else; without large text the rows are unchanged |
| `SpoolCodec.RestoreSharedStrings` | bkk_collector/storage/spool_codec.py:33-45 | restores every reference, and refuses exactly when some reference is malformed |
| `SpoolCodec.ReadSegment` | bkk_collector/storage/parquet_store.py:249-257 | other versions are refused, version 1 is read as it is, version 2 is restored |
| `SpoolCodec.WriteAndRead` | bkk_collector/storage/parquet_store.py:238-257 | a segment reads back the staged rows if and only if alerts do not hold both large text and a cell that looks like a reference |
| `PartitionState.ExactlyOnePlace` | bkk_collector/storage/parquet_store.py:270-359 | a staged segment is pending and in no output, or in exactly one output; when both, its marker is live |
| `PartitionState.Conservation` | bkk_collector/storage/parquet_store.py:319-359 | the rows of the visible files and of the uncovered segments are, with multiplicity, the rows staged |
| `PartitionState.Drained` | bkk_collector/storage/parquet_store.py:361-383 | with nothing pending and no compaction open, the files on disk hold the rows staged |
| `PartitionSteps.MarkerKeepsInv` | bkk_collector/storage/parquet_store.py:338-349 | writing a marker keeps the invariant: its batch is in no file, compacted or not |
| `PartitionSteps.OutputKeepsInv` | bkk_collector/storage/parquet_store.py:350-351 | writing the output makes its batch covered exactly once |
| `PartitionSteps.UnlinkSegmentKeepsInv` | bkk_collector/storage/parquet_store.py:298-303 | removing a source whose output is valid loses no row |
| `PartitionSteps.DropMarkerKeepsInv` | bkk_collector/storage/parquet_store.py:304-312 | a marker may go once its sources are gone, or while its output is not there |
| `PartitionSteps.CompactedKeepsInv` | bkk_collector/storage/parquet_compact.py:83-102 | the compacted file takes the place of its sources, segment for segment |
| `PartitionSteps.UnlinkFileKeepsInv` | bkk_collector/storage/parquet_compact.py:103-105 | removing a compacted source changes nothing that is visible |
| `PartitionSteps.StepKeepsInv` | bkk_collector/storage/parquet_store.py:230-359 | every atomic write of staging, commit, recovery and compaction keeps the invariant |
| `PartitionSteps.ExactlyOnce` | bkk_collector/storage/parquet_store.py:230-383 | over every interleaving of staging, commits, crashes, recoveries and compactions: one place for each segment, at most one marker, rows conserved |
| `ParquetStore.PartitionDir.Stage` | bkk_collector/storage/parquet_store.py:230-247 | a poll's rows become one segment, an empty poll none |
| `ParquetStore.PartitionDir.CommitSegments` | bkk_collector/storage/parquet_store.py:319-359 | stopped anywhere it has made only allowed steps; not stopped it finishes: the batch is gone, the marker too, and the output holds the batch's rows |
| `ParquetStore.PartitionDir.RecoverMarker` | bkk_collector/storage/parquet_store.py:279-316 | an interrupted commit of any reachable state is finished or undone, never refused, when nothing interrupts the recovery |
| `ParquetStore.PartitionDir.RecoverCommits` | bkk_collector/storage/parquet_store.py:270-317 | recovery that is not blocked leaves no marker; it is blocked only when interrupted |
| `ParquetStore.PartitionDir.CommitPending` | bkk_collector/storage/parquet_store.py:370-380 | batches of at most twenty, in listed order, up to the first failure; without one every listed segment is committed and the rows counted are the rows written |
| `ParquetStore.DurableParquetSpool.Flush` | bkk_collector/storage/parquet_store.py:361-383 | a due flush without errors has finished every marker and committed everything pending at its start; only such a flush moves the flush time; the files and rows it reports are there; with nothing interrupting it there are no errors |
| `ParquetCompact.CompactPartition` | bkk_collector/storage/parquet_compact.py:29-115 | skipped exactly when the spool is not empty or no transaction is open and there are too few files; else, from any reachable state, never refused: stopped anywhere it leaves all sources or a valid output, and not stopped it ends with one valid output, no source, no marker; other files are untouched |
| `ParquetCompact.CompactionKeepsRows` | bkk_collector/storage/parquet_compact.py:36-73 | the files before and after hold the same rows with multiplicity |
| `Retention.Maintenance.VerifyRemote` | bkk_collector/archive/backup.py:234-259 | true exactly when every artifact is at the revision with its digest, asking a hundred paths at a time |
| `Retention.Maintenance.CheckLocal` | bkk_collector/archive/retention.py:54-102 | the checks before the network, with the matching intent when files are missing |
| `Retention.AcceptsMeaning` | bkk_collector/archive/retention.py:52-116 | exactly when a date is accepted, in terms of the spool, the files, the receipt, the manifest, the intent and the remote |
| `Retention.RefusedWhileStaged` | bkk_collector/archive/retention.py:30-50 | while any of the three feeds has rows of the date in its spool nothing is unlinked |
| `Retention.Maintenance.PruneDate` | bkk_collector/archive/retention.py:52-144 | one attempt, whatever fails or changes meanwhile |
| `Retention.Maintenance.PruneConfirmed` | bkk_collector/archive/retention.py:147-171 | every confirmed date before the cutoff has its turn, one after the other, whatever the others came to; nothing while another pass holds the lock |
| `Retention.PassIsSafe` | bkk_collector/archive/retention.py:147-171 | a pass unlinks only files of its kind, of confirmed dates before the cutoff, each of them safe at its revision |
| `Retention.PassPrunes` | bkk_collector/archive/retention.py:147-171 | a confirmed date before the cutoff that is accepted when the pass begins has no file left when it ends, if its own turn is healthy, however the others' turns go |
| `Retention.RefusalLosesNothing` | bkk_collector/archive/retention.py:52-119 | a date that fails any check loses no file and gets no intent; a file goes if and only if every check holds, the intent is on record and there is something to unlink |
| `Retention.PruneKeepsSafe` | bkk_collector/archive/retention.py:97-141 | every unlinked file is at the recorded revision with the content it had |
| `Retention.PruneTouchesOneDate` | bkk_collector/archive/retention.py:82-93 | a prune unlinks only files of its kind and date that the receipt lists |
| `Retention.ResumptionAccepted` | bkk_collector/archive/retention.py:94-118 | a date of which files are gone is accepted again with its intent, while the rest of it, its manifest and its receipt are unchanged, whatever became of other files |
| `Retention.InterruptedIsAccepted` | bkk_collector/archive/retention.py:120-144 | whatever a prune of an accepted date comes to beside processes that leave the date alone, the next one accepts it, unless rows of the date have been staged meanwhile |
| `Retention.AcceptedIsPruned` | bkk_collector/archive/retention.py:120-144 | with a healthy remote an accepted date loses exactly its inventory, beside processes that leave the date alone |
| `Retention.ClosingIntent` | bkk_collector/archive/retention.py:125-144 | the closing intent lists exactly the files unlinked and says whether they were all |
| `Retention.AcceptedStaysAccepted` | bkk_collector/archive/retention.py:52-171 | over any run of prunes of this and other dates, backups, staging, collector writes and foreign commits that leave the date alone, an accepted date is accepted again whenever no row of it waits in the spool |
| `Retention.InterruptedIsFinished` | bkk_collector/archive/retention.py:94-144 | so the first healthy prune after such a run removes whatever is left of it |
| `Retention.BackupKeepsHead` | bkk_collector/archive/backup.py:301-356 | a backup of one date keeps the evidence of another at the head of the remote |
| `Retention.Maintenance.LocalArtifacts` | bkk_collector/archive/backup.py:103-115 | one entry a path, the manifest itself among them, nothing from elsewhere |
| `Retention.Maintenance.UploadAll` | bkk_collector/archive/backup.py:301-311 | every revision added changes one artifact in the revision before it or is somebody else's; left alone, it leaves a head that holds every artifact, also those it did not upload again |
| `Retention.Maintenance.BackupDate` | bkk_collector/archive/backup.py:283-356 | a receipt is written only after everything it lists was read back at the revision it pins, and lists everything in the manifest, the manifest, and nothing else; a confirmed date changes nothing; left alone, a sound date is confirmed |
| `Retention.RunKeepsInv` | bkk_collector/archive/retention.py:52-144 | in every reachable state of backup, prune, crashes, remote failures and other processes: unlinked files are safe and receipts describe their revisions |
| `Collector.Collector.ArchiveRaw` | bkk_collector/collector.py:343-381 | when an archive call is due, what it repairs first, what reaches the disk and what it reports |
| `Collector.ArchiveMeaning` | bkk_collector/collector.py:343-381 | a response is appended when forced, when its feed has none yet, or an interval after the last; not behind a log whose repair failed; other feeds are left alone |
| `Collector.AppendsBehindCleanTails` | bkk_collector/collector.py:353-380 | an append never goes behind a tail that may be damaged, and a failed one is remembered |
| `Collector.Collector.ProcessResult` | bkk_collector/collector.py:456-666 | the whole processing of a poll, every effect failing on its own, the exceptions of the digest and of the monitor included; the rows to stage become one segment of the feed and date |
| `Collector.BeforeJournalShape` | bkk_collector/collector.py:456-572 | rows are staged, the response is in the raw log when the event says so, and a failure is archived or flagged |
| `Collector.PollStages` | bkk_collector/collector.py:540-556 | all parsed rows of vehicle positions, the selected rows of other feeds, become one segment of the poll's feed and date, unless staging raises beforehand or there are none |
| `Collector.ProcessedJournals` | bkk_collector/collector.py:590-662 | one event of the poll is journalled, unless its append, or the digest or the monitor before it, raised |
| `Collector.EventSays` | bkk_collector/collector.py:590-655 | field by field what the event says; the rows it counts are those staged and committed |
| `Collector.JournalIsHonest` | bkk_collector/collector.py:562-656 | at every point of every run: journalled emitted rows are at most the staged rows, archived events at most the raw records, and every failed poll is archived or flagged |
| `Collector.SyncKeptIff` | bkk_collector/collector.py:343-572 | a poll keeps the auxiliary signature in step with the raw log if and only if no changed state reaches the raw log in a call that raised, came after the journal, or was followed by an exception from the digest |
| `Collector.AuxiliaryNotSkipped` | bkk_collector/collector.py:496-509 | from a state in step, a parsed poll that reports no raw failure has the auxiliary state of the last response on disk |
| `Collector.RunKeepsSync` | bkk_collector/collector.py:343-572 | over any run without those branches, every parsed and digested poll that reports no raw failure has the auxiliary state of the last response on disk |
| `Collector.UnnotedSkipsAState` | bkk_collector/collector.py:506-572 | wherever one of the branches is taken, the next poll with the noted state that is not due is skipped unflagged |
| `Collector.LateArchiveSkipsAState` | bkk_collector/collector.py:658-666 | three polls after which a skipped state is not flagged |
| `Collector.UnreportedArchiveSkipsAState` | bkk_collector/collector.py:372-381 | three polls after which a state is skipped because its record had arrived in an append that raised |
| `Ledger.JournalledRowsAreKept` | bkk_collector/archive/manifests.py:229-239 | at every point of every run of the collector and the store together: the journalled rows are at most the rows in the visible Parquet files and the uncovered pending segments, which are, with multiplicity, the rows ever staged |
| `Ledger.StagedRowsAreThePolls` | bkk_collector/collector.py:540-556 | at every point of every run, what was staged under a name is exactly the rows its poll had to stage, and every such poll is there |
| `Ledger.DrainedDayHasItsRows` | bkk_collector/archive/manifests.py:229-239 | a day with nothing in its spool has at least the Parquet rows its journal counts, with a compaction left anywhere |
| `Publish.SnapshotStore.Begin` | frontend/worker/index.ts:85-92 | refusals by time and by age, else the head is remembered |
| `Publish.SnapshotStore.Finish` | frontend/worker/index.ts:93-98 | the put happens exactly when the stored object still has the remembered tag |
| `Publish.FreshSnapshotIsPublished` | frontend/worker/index.ts:85-98 | a snapshot within two minutes of the clock and no older than the stored one, put before anything else happens, is the stored one |
| `Publish.PublishedTimeIsMonotone` | frontend/worker/index.ts:91-98 | under any interleaving of publishers the stored generation time never decreases, even when a tag recurs |
| `Timeline.ObservedVersionAt` | bkk_collector/archive/static_gtfs.py:232-251 | the first of the latest checks up to the instant |
| `Timeline.ObservedMeaning` | bkk_collector/archive/static_gtfs.py:225-251 | in terms of the history: the first of the latest events up to the instant with its digest and the confidence of its source, or none if there is no such event |
| `Timeline.LatestIsLatest` | bkk_collector/archive/static_gtfs.py:239-246 | no check up to the instant is later, and none before it in the history has its time |
| `Timeline.ObservedTimeline` | bkk_collector/archive/static_gtfs.py:253-294 | the merged segments of the boundaries, or the range error |
| `Timeline.SortOrdered` | bkk_collector/archive/static_gtfs.py:257-264 | the checks are ordered by time, none lost |
| `Timeline.WinnerSorted` | bkk_collector/archive/static_gtfs.py:257-264 | sorting is stable: the last check of a time stays last |
| `Timeline.TimelinePartitions` | bkk_collector/archive/static_gtfs.py:265-294 | segments follow each other without gap or overlap to the end of the range, neighbours differ |
| `Timeline.TimelineHasNoEmptySegments` | bkk_collector/archive/static_gtfs.py:270-293 | with distinct check times every segment covers some instant |
| `Timeline.TimelineIsPointwise` | bkk_collector/archive/static_gtfs.py:232-294 | with distinct check times the timeline names at every instant what the lookup names, and nothing where it names nothing |
| `Timeline.AgreeIffTiesAgree` | bkk_collector/archive/static_gtfs.py:232-294 | the two agree on the range if and only if tied checks inside it agree first to last |
| `Timeline.TiesDisagree` | bkk_collector/archive/static_gtfs.py:265-268 | two tied checks on which they differ |
| `Quantile.RevisionDistribution.Quantile` | bkk_collector/cli/quality_diagnostics.py:34-43 | the value returned has rank floor((n - 1) * fraction) by magnitude, and the scan never runs out |
| `Quantile.RankIsSortedElement` | bkk_collector/cli/quality_diagnostics.py:39-42 | the value of a rank is the element at that index of the sorted magnitudes |
| `Quantile.SortedQuantile` | bkk_collector/cli/quality_diagnostics.py:30-43 | after any values were added the quantile is the magnitude of the sorted element at the floor of (n - 1) * fraction |

## Left out

- HTTP fetching, sessions, log redaction, health checks, the command line and the web interface: no state of the protocols above.
- Protobuf and realCity parsing: a row is a record of opaque fields, and parsing succeeds or fails as a parameter.
- PyArrow schemas, dictionary arrays and Parquet encoding: a Parquet file is its sequence of rows.
- Loss of data that was written but not synced: a process may die between any two steps, the operating system does not.
- `zlib.error`, which `bkk_collector/storage/raw_log.py:113` does not catch: a payload that fails to decompress is an invalid record.
- `scan_raw_log(validate_gzip=False)`: no caller in the collector uses it.
- Rounding: deadlines, lags and the quantile's target are exact real numbers; `Quantile.Target` is the floor of the exact product.
- Size comparisons beside digest comparisons: equal digests mean equal contents here, so sizes add nothing.
- Alert size limits of `stage` (`bkk_collector/storage/parquet_store.py:94-106`): a refused stage stages nothing.
- Directories and symlinks inside partitions, unsafe artifact paths: `_inventory` and `safe_path` refuse them before anything else happens.
- A file rewritten with the same bytes during a prune: the inventory's inode and time comparison refuses it; the model, which compares names and contents, goes on.
- Staging into a day while compaction lists its files, and manual rebuilds beside maintenance: the source documents both as unsupported. Staging after the transaction is written is modelled.
- The order of directory listings: any order that lists each name once; likewise the order of a Python set in `Collector.Collector.RepairPending`, which takes the log to be appended to last.
- Partitions that appear while a flush is running: a spool has a fixed sequence of partitions, empty ones included.
- Receipts of versions other than 2, the legacy inventory and `run_backlog`'s stopping rule: bookkeeping around `BackupDate`.
- The statistics and timeline demanded of a manifest (`_validate_manifest`): one flag, `sound`; the feed evidence a prune needs is checked on the receipt itself.
- Startup repair of raw logs older than the latest prior day: a restart of the collector is assumed to find every damaged log it may append to again.
- Retention.Maintenance.UploadAll: that the head holds every artifact is stated for a remote that nobody else writes to; with others `BackupDate` relies on reading everything back.
- Presence identity tuples of a wrong length and negative or fractional source timestamps: the types of the model do not have them.
- A new file that gets the device and inode of the one it replaced: a replaced file is another file to the reader.
- Scheduler.EveryRequestIsDelivered: an `executor.submit` that raises (`bkk_collector/realtime/realtime_scheduler.py:158`) is not modelled; it would end the scheduler thread, and what that step had collected would not reach the queue. Delivery and the accounts are stated for runs in which no submit raises.
- Objects written to the public bucket by anything but the Worker, and their deletion.
- ETags and digests of different contents that collide.
- Wall-clock fields, log lines, `baseline_reason`, `run_id` and other provenance copied through unchanged.
