# Exploripi: a verified model of the ingest pipeline and its neighbours

Exploripi receives location points from phones, appends them to an on-disk spool,
acknowledges them, and moves them in batches into SQLite. This project models that
path in Dafny, fault by fault, and proves what it guarantees; it also models visit
detection and its incremental scheduler, the request rate limiter and cursor paging.

## How the model is laid out

* `Ingest`, `Buffer`, `Spool`, `Store` give the meaning of each component as values
  and functions. `Buffer.Manager`, `SpoolManager.FileSpoolManager`,
  `Store.SQLiteStore`, `Flusher.BatchFlusher`, `Recovery.Recoverer` and
  `IngestHandler.Handler` are the mutable objects of the program, each method proved
  against those functions.
* `Pipeline` is a step system over disk, database and RAM. Handlers append and
  enqueue in two separate steps; draining, committing, checkpointing, compaction,
  crash, restart and every failure of a store or checkpoint write are steps of their
  own, so a list of steps is one interleaving. A failed checkpoint write may leave
  the file as it was, torn, or already holding the new value. A restart may resume
  the numbering anywhere; the program always resumes at 1.
* The flusher, recovery and ingest methods return, as ghost results, the pipeline
  steps they performed. What is proved about runs therefore holds of the code.
* `PipelineSafety` proves crash safety of orderly runs, `PipelineBounds` what holds of
  every run, `PipelineExact` the exact law of acknowledgements over every run,
  `PipelineProgress` what can always be done when nothing fails, `PipelineLimits` and
  `PipelineTorn` where crash safety ends, `SharedNames` what keeps users apart,
  `Provenance` that every row carries what some request sent.
* `PipelineFaults` adds append calls that fail: after some counted records an error may
  leave nothing of the next line, all of it, or a part. It proves which are harmless.
* `DetectorSplit` and `DetectorCut` study a cut in a history, `VisitTable` the windowed
  rewrite, `VisitScheduler` and `VisitRounds` one run and all runs of the scheduler,
  `LongStay` and `LatePoints` what disturbs them.
* `SegmentName` and `SegmentDirectory` join the numbers the spool is keyed by to the
  file names the program meets. `RateLimit` and `Paging` stand beside these.

Operations are proved against functions, and what the functions mean is then stated on
its own: on the fields of the rows, visits, records and replies they produce. A method
that can meet errors takes a parameter `calm`; its contract says when a calm call succeeds.

I/O, the clock and JSON are nondeterministic choices or parameters: the length of a
record's line, the distance between coordinates and the point hash are arbitrary
functions in the configuration, so every result holds for all of them.

## What was found

Seven promises of the program hold only under a condition it does not enforce. Each has
a proved condition and a failing input or family of inputs.

* **Acknowledged records can be lost to the checkpoint.** Over every run whatever,
  acknowledgements are kept at every moment if and only if each was given above the
  checkpoint and no checkpoint passed an acknowledged record still queued behind the
  committed batch, records already represented in the database aside (`AckLawIff`).
  The program checks neither. Two ways to break it, each exact: a handler overtaken
  between append and enqueue has a losing continuation, and only then
  (`EnqueueOrderIff`); a process whose recovery is through is safe whatever it does if
  and only if its counter is above the checkpoint and the disk (`LifeSecureIff`). Since
  `nextSeq` restarts at 1 in every process (internal/spool/manager.go:95), that means:
  only if nothing was ever checkpointed or recovered (`FirstIngestAfterRestart`); one
  point flushed, a restart and the next point are a run that loses the latter
  (`RestartLosesAcked`). A reused number also stops the flusher until the process dies
  (`ReusedNumberBlocksFlusher`). One life followed by any interrupted recoveries needs
  no assumption on numbering (`OneLifeCrashSafety`); many lives need only that each
  restart numbers on (`LivesCrashSafety`).
* **A torn checkpoint file is final.** The file is truncated and rewritten in place
  (internal/spool/replay.go:46-53). A write that dies in between leaves a file no later
  start can parse (internal/spool/checkpoint.go:35-39), and the server exits
  (cmd/server/main.go:86-88). It stays torn in every run (`TornForever`); after a crash
  acknowledged records can be brought back if and only if the file is whole
  (`ComesBackIff`), and an orderly run reaches a state where they cannot
  (`TearLosesAcked`).
* **A failed append can cost acknowledged records.** A record is counted only after its
  sync (internal/spool/append.go:57-64), so a sync that fails leaves a line whose number
  the next record gets again. From then on the checkpoint can pass acknowledged records,
  and after an append that fails in any other way it cannot (`FailedAppendIff`,
  `LandedLosesAcked`); in low-wear mode, which never syncs here, it does not happen. A
  write that stops inside a line makes its segment unreadable for good
  (`DamageIsForever`), and after a crash nothing can be brought back unless all files
  can be read (`RecoversIff`, `CutLosesAcked`).
* **Incremental visits can differ from a full rebuild.** Whatever was stored, a rewrite
  is exact if and only if the stored visits from before its window are those of the
  whole history and reading the tail of the one across its start adds none
  (`RewriteExactIff`). From exact visits that means: the new points, however late, change
  no visit that starts before the window (`IncrementalIsFullIff`); if none is late, the
  visit across its start is the same before and after (`InTimeUndisturbedIff`). A device
  that stays put across it ends up with two overlapping visits (`LongStayIsDoubled`,
  `ParkedIsScheduled`); a stay that has ended does no harm (`EndedStayIsHarmless`). A
  late point inside a stored visit is always missed (`LatePointInside`); a late stay is
  missed as long as windows open behind it (`BacklogIsLost`), and found when the
  watermark comes to stand at a late point (`HealingExample`).
* **The points of two users can get in each other's way.** The buffer remembers devices by
  name (internal/buffer/manager.go:274), so suppression keeps users apart in every run if
  and only if no two of them registered the same name (`OwnSuppressorIff`); otherwise a
  point can be acknowledged though nothing of its user was written
  (`NeighbourIsDropped`). And points are known by a digest of their payload
  (internal/ingest/owntracks_parser.go:98), so every acknowledged point ends up under its
  own user in every run if and only if there is only one user (`OwnRowIff`).
* **Cursor paging can skip rows.** It is complete exactly when the page size is below
  the 5000-row cap, or everything fits one answer, and sequence order agrees with
  time order at every page boundary (`PagingCompleteIff`). The default page size for
  simplified requests is 5000, which is not below the cap (`CapHidesTheRest`).
* **A stray file in the spool directory can break recovery.** A name that parses need not
  be one the program writes (`ParsedNameIsCanonicalIff`), yet it is counted as a segment.
  A replay works and returns each record once if and only if every such name has the
  number of a segment that is there and wholly committed (`NamedReplayIff`);
  `segment-1.ndjson` makes it fail or return records twice (`ShortNameExample`).

## Model

| member | source | states |
|---|---|---|
| PipelineSafety.CrashSafety | internal/flusher/flusher.go:185-215 | after every orderly interleaving of handlers, flusher, faults, crashes and restarts, an acknowledged record above the checkpoint is on disk and in the next replay, unless the checkpoint file is torn and there is none; one at or below it is in the database or suppressed by an earlier retained record that is; and no hash has two rows |
| PipelineSafety.LivesCrashSafety | internal/tasks/startup_recovery.go:28-99 | any number of lives, all ingesting, are crash safe if every restart numbers on above the checkpoint and the disk and handlers enqueue in append order |
| PipelineSafety.OneLifeCrashSafety | internal/spool/manager.go:75-98 | one process life from an empty spool, cut short anywhere, and any recoveries after it need no assumption on sequence numbers to be crash safe |
| PipelineSafety.QuietMeansDurable | cmd/server/main.go:184-186 | when nothing is queued, in flight or being recovered, every acknowledged record is durable and behind the checkpoint |
| PipelineSafety.BatchIsInsertable | migrations/0001_init_schema.sql:23-43 | in every orderly run the uniqueness of raw_points.seq never refuses a batch |
| PipelineSafety.CommittedIsCovered | internal/flusher/flusher.go:191-203 | once a batch is committed, every acknowledged record up to its highest number is durable, which is what lets the checkpoint pass it |
| PipelineSafety.StepKeeps | internal/flusher/flusher.go:185-215 | every step, failures and crashes included, keeps the pipeline invariant |
| PipelineSafety.EnqueueKeeps | internal/api/ingest.go:110-115 | an enqueue in append order, accepted or rejected, keeps the invariant |
| PipelineSafety.RestartKeeps | internal/tasks/startup_recovery.go:48-56 | replaying the spool after a crash puts every acknowledged uncommitted record back on its way |
| PipelineExact.AckLawIff | internal/api/ingest.go:104-134 | for every run, whatever its order, numbering, faults and restarts: every acknowledgement is kept at every moment if and only if each was given above the checkpoint or for represented records, and no checkpoint passed an acknowledged, unrepresented record still queued |
| PipelineExact.StepSecureIff | internal/flusher/flusher.go:185-215 | the same for one step: from a secure state it is secure again if and only if its guard holds |
| PipelineExact.PassingIff | internal/flusher/flusher.go:199-211 | moving the checkpoint to a committed batch's maximum keeps every acknowledgement if and only if nothing acknowledged up to it is still queued and unrepresented |
| PipelineExact.CommittedIsRepresented | internal/flusher/flusher.go:191-203 | without any order assumed, each record of a committed batch, retained or suppressed, is represented in the database |
| PipelineLimits.EnqueueOrderIff | internal/api/ingest.go:105-115 | when one of several waiting handlers enqueues, all continuations keep every acknowledgement if and only if it was the first in append order |
| PipelineLimits.LifeSecureIff | internal/spool/manager.go:75-98 | once recovery is through, everything the process may yet do keeps every acknowledgement if and only if its counter is above the checkpoint and everything on disk |
| PipelineLimits.TwoLivesIngest | internal/tasks/startup_recovery.go:57-63 | two lives that both ingest, the second numbering on from the first, are such a run |
| PipelineProgress.FlushAll | internal/flusher/flusher.go:173-215 | when nothing fails the flusher can empty RAM, and everything that was there ends at or below the checkpoint |
| PipelineProgress.ReloadAll | internal/tasks/startup_recovery.go:66-98 | with room for one record, a recovery can always be run to its end |
| PipelineTorn.TornForever | internal/spool/replay.go:29-32 | a torn checkpoint stays torn along every run |
| PipelineTorn.ComesBackIff | internal/tasks/startup_recovery.go:48-56 | after a crash some continuation makes every acknowledged record durable if and only if the checkpoint file is whole or nothing is left to bring back |
| PipelineTorn.RestartBringsBack | internal/tasks/startup_recovery.go:53-98 | with a whole checkpoint file, restarting, reloading and flushing makes every acknowledged record durable |
| PipelineTorn.TearLosesAcked | internal/spool/replay.go:46-53 | an orderly run of one life ends with an acknowledged record on disk, not in the database, and no continuation that brings it back |
| PipelineFaults.FaultyCrashSafety | internal/spool/append.go:50-62 | with append calls failing at any write or sync: as long as numbers are fresh, an acknowledged record above the checkpoint is on disk and in the next replay if all files can be read, and one at or below it is durable |
| PipelineFaults.FaultyAckLawIff | internal/api/ingest.go:104-134 | over every run with failing appends, acknowledged records stay on disk or represented at every moment if and only if each acknowledgement and each checkpoint meets its guard |
| PipelineFaults.FailedAppendKeeps | internal/spool/append.go:46-64 | a failed append keeps the pipeline invariant, and the counter stays above the disk if and only if no whole line was left uncounted |
| PipelineFaults.FailedAppendIff | internal/spool/append.go:57-63 | after a failed append, everything the process may yet do and all recoveries after it keep every acknowledgement if and only if no whole line was left uncounted |
| PipelineFaults.CountedLifeCrashSafety | internal/spool/append.go:27-66 | one life with any failures but syncs under a written line, and any recoveries after it, is crash safe |
| PipelineFaults.LandedLosesAcked | internal/spool/append.go:57-63 | a failed sync on the first request has a continuation in which the next acknowledged point is lost |
| PipelineFaults.DamageIsForever | internal/spool/compaction.go:29-59 | along every run a segment with part of a line in it is neither repaired nor removed |
| PipelineFaults.RecoversIff | internal/spool/replay.go:132-160 | after a crash some continuation makes every acknowledged record durable if and only if the checkpoint file and all segments can be read, or nothing is left to bring back |
| PipelineFaults.CutLosesAcked | internal/spool/append.go:50-52 | one acknowledged point, a cut line and a crash: the point is on disk, and no continuation brings it back |
| PipelineLimits.FirstIngestAfterRestart | internal/spool/manager.go:89-97 | with the counter back at 1, everything the process may yet do is safe if and only if no checkpoint was ever written and nothing was recovered |
| PipelineLimits.RestartLosesAcked | internal/spool/manager.go:89-97 | one point ingested and flushed, a crash, a clean recovery at number 1 and the next point: a run that acknowledges the latter behind the checkpoint, unrepresented, and that no further start reads back |
| PipelineLimits.OvertakenAckIsLost | internal/api/ingest.go:105-115 | two handlers whose enqueues swap order lose the first one's acknowledged record |
| PipelineLimits.ReusedNumberBlocksFlusher | internal/store/sqlite_store.go:78-85 | once a front batch has a new hash under a used sequence number, no step until the process dies commits anything or moves the checkpoint |
| PipelineBounds.FifoConservation | internal/flusher/flusher.go:185-215 | in every run, finished batches, the batch in flight and the queue put end to end are exactly the accepted records in order |
| PipelineBounds.TrueCapacity | internal/buffer/manager.go:119-124 | in every run the queue respects both limits while a batch is out and exceeds them by at most one requeued batch otherwise |
| PipelineBounds.SuppressionIsExact | internal/buffer/manager.go:240-294 | in every run a record is a marker if and only if a threshold is set, it and the latest retained record of its device both have a time, these are at most the time threshold apart in either direction, and their places are within the distance threshold |
| Provenance.RowsComeFromRequests | internal/store/sqlite_store.go:119-180 | in every run each row of raw_points, and the row of points derived from it, carries time, place, payload, source, identity, user and device of a point some request sent |
| Provenance.RecordsComeFromRequests | internal/buffer/manager.go:252-268 | in every run an acknowledged record carries a sent point unchanged but for a missing hash, and a queued one is such a record or lacks but its payload |
| SharedNames.OwnSuppressorIff | internal/buffer/manager.go:273-294 | in every run fed by the registered devices a suppressed record was suppressed by one of its own user, if and only if no two users registered the same device name |
| SharedNames.OwnRowIff | internal/store/sqlite_store.go:78-85 | in every orderly run fed by the registered devices each acknowledged record behind the checkpoint has a row of its own user, or its suppressor has, if and only if all devices belong to one user |
| SharedNames.NeighbourIsDropped | internal/buffer/manager.go:252-268 | two users with one device name: a run after which the second's acknowledged point is behind the checkpoint and nothing of that user was written |
| Buffer.MarkerHasWitness | internal/buffer/manager.go:252-268 | every marker has an earlier retained record of the same device within both thresholds |
| Buffer.RetainedAreApart | internal/buffer/manager.go:252-268 | consecutive retained records of one device are never near duplicates |
| Buffer.FilterExtendsHistory | internal/buffer/manager.go:240-271 | filtering a batch continues a well-filtered history and leaves the memory that history implies |
| Buffer.FilterShape | internal/buffer/manager.go:252-270 | filtering keeps every record in place, itself or as its marker |
| Buffer.Manager.FilterNearDuplicates | internal/buffer/manager.go:240-271 | the loop computes the filter that `SuppressionIsExact` describes, and its updates applied to the memory give the filter's memory |
| Buffer.Manager.Enqueue | internal/buffer/manager.go:97-143 | all or nothing under both limits, with totals and per-device counts matching the queue; a rejected call changes nothing |
| Buffer.Manager.DrainBatch | internal/buffer/manager.go:146-179 | removes exactly the first records up to the maximum, in order, and keeps the accounts |
| Buffer.Manager.RequeueFront | internal/buffer/manager.go:184-211 | puts a batch back in front in order and keeps the accounts |
| Spool.CompactionKeepsReplay | internal/spool/compaction.go:29-59 | for any segments, active segment and checkpoint, and wherever it stops, compaction leaves the replay unchanged |
| Spool.CompactionCutsPrefix | internal/spool/compaction.go:30-56 | on an ordered spool compaction removes exactly a prefix of the segments |
| Spool.CompactionRemovesIff | internal/spool/compaction.go:30-56 | up to where it stops compaction removes a segment if and only if it is closed and all its records are at or below the checkpoint |
| Spool.CompactionKeepsUncommitted | internal/spool/compaction.go:35-47 | no record above the checkpoint leaves the disk |
| Spool.LayoutOverLife | internal/spool/append.go:27-106 | in one life each segment begins with its own number, segments in start order are the contiguous history minus a prefix behind the checkpoint, and each is within the size limit or holds one record |
| Spool.SegmentsAreFull | internal/spool/append.go:69-85 | while a process appends, advances and compacts, a segment is left only when the next line would have exceeded the limit |
| Spool.ReplayMembers | internal/spool/replay.go:80-91 | a replay is exactly the records on disk above the checkpoint |
| Spool.ReplayIncreasing | internal/spool/replay.go:80-93 | on an ordered spool a replay comes back in sequence order |
| Spool.AppendAllReplay | internal/spool/append.go:27-66 | an append call adds exactly its records, in order, at the end of every replay |
| SpoolManager.FileSpoolManager.AppendCanonicalPoints | internal/spool/append.go:12-67 | numbers, places and returns the records, or fails at one of them having counted those before it and left nothing, the whole or a part of its line; unsynced lines stay a tail of the open segment, bounded by the mode until a due sync fails; without an error it succeeds |
| SpoolManager.FileSpoolManager.EnsureSegmentForWrite | internal/spool/append.go:69-85 | rolls over exactly when no segment is open or a non-empty one would exceed the limit, syncing what it closes; on an error the old segment is still open, or none is |
| SpoolManager.FileSpoolManager.ShouldFsync | internal/spool/append.go:130-144 | syncs always; exactly at the byte threshold or once the interval has passed; or never, by mode |
| SpoolManager.FileSpoolManager.AdvanceCheckpoint | internal/spool/replay.go:21-62 | the checkpoint only moves forward; a failure leaves it unchanged, torn, or at the new value; on a file that can be read and without an error it succeeds |
| SpoolManager.FileSpoolManager.ReplayAfterCheckpoint | internal/spool/replay.go:66-94 | returns the replay, or nothing when a file cannot be read or decoded, and only then |
| SegmentDirectory.ListSegmentStarts | internal/spool/replay.go:107-130 | the numbers of all names that parse, in ascending order, one for each name |
| SegmentDirectory.ReplayNamed | internal/spool/replay.go:75-93 | opens the name written for each listed number; a missing file ends the replay |
| SegmentDirectory.NamedReplayIff | internal/spool/replay.go:66-130 | a replay over file names succeeds and equals the one over the program's own segments if and only if every stray name has the number of a segment that is there and has nothing left to replay |
| SegmentDirectory.OwnNamesReplay | internal/spool/replay.go:66-130 | with the program's own names only, the directory is read as one keyed by number |
| SegmentDirectory.ShortNameExample | internal/spool/segment.go:19-34 | a file named segment-1.ndjson makes a replay fail, or return the records of segment 1 twice |
| SpoolManager.FileSpoolManager.MaxRecordSeqInSegment | internal/spool/compaction.go:61-80 | the highest sequence number of a segment, or one below its start when empty |
| SpoolManager.FileSpoolManager.CompactCommittedSegments | internal/spool/compaction.go:15-59 | deletes the fully committed closed segments up to where it stops, which is before any damaged one it has to read, and counts them |
| SegmentName.NameRoundTrip | internal/spool/segment.go:14-34 | every segment name decodes back to its start number |
| SegmentName.NameIsSpelled | internal/spool/segment.go:12-16 | a segment's name is the prefix, 20 digits with the value of its number and the extension |
| SegmentName.ParsedNameIsCanonicalIff | internal/spool/segment.go:19-34 | among all names that parse, the one the program writes for that number is exactly the bare name with 20 digits |
| Store.ReplayBatchesIsNoop | internal/store/sqlite_store.go:55-60 | committing batches again, any of them, in any order, is accepted and changes no table |
| Store.InsertAllKeeps | internal/store/sqlite_store.go:78-99 | hashes and sequence numbers stay unique and points mirrors raw_points row for row |
| Store.LastSeqIsMaximum | internal/store/sqlite_store.go:101-111 | each device's last_seq_received is the maximum number ever committed for it |
| Store.InsertAllEffect | internal/store/sqlite_store.go:121-195 | a batch adds exactly its hashes, rewrites no row and lowers no device mark |
| Store.FindDevice | internal/store/sqlite_store.go:234-245 | the first device row of that owner and name, or none |
| Store.SQLiteStore.InsertSpoolBatch | internal/store/sqlite_store.go:60-209 | one transaction: all records inserted as `InsertAllStores` says and the highest number returned, or nothing changed; without a database error it succeeds if the table constraints admit the batch |
| Store.InsertAllStores | internal/store/sqlite_store.go:119-180 | the first record of each new hash gets a row in raw_points and one in points with its own number, hash, payload, time and place, its owner and trimmed source, and a device row of its owner and trimmed name; no other row is added |
| Store.InsertAllDevices | internal/store/sqlite_store.go:234-267 | device rows keep owner, name and source, and a new one is made for the first record of the batch of that owner and trimmed name, with that record's source |
| Text.TrimSpaceIff | internal/store/sqlite_store.go:422-436 | a text is what trimming leaves of another if and only if it has no white space at its ends and the other is it with white space around |
| Flusher.SplitWriteAndCheckpointBatch | internal/flusher/flusher.go:217-230 | the records to write and the highest number of the whole batch |
| Flusher.BatchFlusher.FlushOneBatch | internal/flusher/flusher.go:185-215 | performs pipeline steps; on success these are drain, commit, checkpoint and compaction and the front batch is gone, on failure the queue reads as before; in an orderly run with a readable checkpoint file it fails only on an error |
| Flusher.BatchFlusher.FlushPass | internal/flusher/flusher.go:145-171 | leaves a suffix of the queue, of the exact length of the flush arithmetic when nothing fails |
| Flusher.BatchFlusher.FlushNow | internal/flusher/flusher.go:104-108 | on success leaves less than one batch |
| Flusher.BatchFlusher.FlushUntilEmpty | internal/flusher/flusher.go:173-183 | terminates, and on success the queue is empty; in an orderly run with a readable checkpoint file it succeeds unless there is an error |
| Flusher.PassArithmetic | internal/flusher/flusher.go:145-171 | a timed pass leaves 0 of a partial batch and n mod batch size otherwise; a triggered pass leaves n mod batch size |
| Recovery.Recoverer.RecoverFromSpool | internal/tasks/startup_recovery.go:28-99 | on success the replay is a durable flushed prefix followed by exactly the buffer, shorter than a batch, reloaded in full chunks and a last one, with Enqueued = Replayed; it never runs out of room when a chunk fits beside an unfinished batch; with readable files and no error nothing else can make it fail; failing stays crash safe |
| Recovery.RetryFits | internal/tasks/startup_recovery.go:74-80 | after a successful flush the retried chunk is always accepted, given that room |
| IngestHandler.Handler.AppendAndEnqueue | internal/api/ingest.go:104-134 | a response acknowledges exactly the appended records; an error, from a full buffer or a failed append, acknowledges none; without a file error it responds if and only if the buffer takes the records; and crash safety is kept |
| Detector.Detect | internal/visits/detector.go:34-93 | the nested loops return the visits of `DetectedIff` |
| Detector.WindowWithinRadius | internal/visits/detector.go:95-102 | true exactly when every point of the window is within the radius |
| Detector.DetectedIff | internal/visits/detector.go:34-93 | a list is what detection returns if and only if it reports, in order, disjoint windows of at least two timed points that kept within the radius of their centroid as they grew, could not take in the next point and last long enough, none left out; each with the times of its ends, its number of points and the place its points lie evenly around; or is empty for fewer than two points or unusable settings |
| Detector.CoverIsScan | internal/visits/detector.go:43-90 | there is only one greedy cover |
| DetectorSplit.DetectSplitIff | internal/visits/detector.go:34-93 | detection distributes over a cut in time if and only if no visit straddles it |
| DetectorCut.BeforeCutIff | internal/visits/detector.go:43-90 | two histories with the same part before a cut agree on the visits that start there if and only if they agree on the one that straddles it |
| DetectorCut.DetectedAroundCut | internal/visits/detector.go:34-93 | detection is the visits starting before a cut followed by the detection of what the straddling one leaves |
| DetectorCut.TailIgnoredIff | internal/visits/detector.go:43-90 | leading points can be dropped without changing the result if no visit starts among them, and only if, unless their end is a tie in time |
| VisitTable.RewriteExactIff | internal/store/visits.go:32-102 | whatever was stored, a windowed rewrite leaves what a full rebuild would if and only if the stored visits from before the window are those of the whole history and reading the window by itself adds none |
| VisitTable.IncrementalIsFullIff | internal/store/visits.go:32-102 | on exact visits and for new points of any age, if and only if they change no visit that starts before the window and its straddling visit's tail, read again, adds nothing |
| VisitTable.InTimeUndisturbedIff | internal/tasks/visit_scheduler.go:309-321 | for points no older than the window that means: the visit straddling its start is the same before and after |
| VisitTable.IncrementalWithoutStraddle | internal/store/visits.go:32-102 | if no point is late and no old visit straddles the window's start, if and only if no new one does |
| VisitTable.FullRebuild | internal/store/visits.go:26-28 | a full rewrite leaves exactly the detected visits, whatever was stored |
| VisitTable.RebuildKeepsOthers | internal/store/visits.go:60-73 | a rewrite leaves every other device's visits alone |
| VisitTable.RebuiltRows | internal/store/visits.go:56-97 | a rewrite of any window removes exactly the device's visits that start in it and adds exactly the visits of the device's points in it |
| VisitTable.QueryIff | internal/store/visits.go:104-121 | a list is the detection query's answer if and only if it has the device's rows of the window, each as often as the table, by time and then by sequence number |
| VisitTable.PointsSplit | internal/store/visits.go:104-121 | the ordered history is what lies before the window followed by what the windowed query reads |
| LongStay.LongStayIsDoubled | internal/tasks/visit_scheduler.go:309-321 | a window opening inside a stay leaves two overlapping visits where a full rebuild has one |
| LongStay.ParkedExample | internal/tasks/visit_scheduler.go:309-321 | four points for which this happens |
| LongStay.ParkedIsScheduled | internal/tasks/visit_scheduler.go:288-329 | two runs of the scheduler over these points end with them |
| LongStay.EndedStayIsHarmless | internal/store/visits.go:32-102 | histories in which a visit straddles the window's start before and after and the rewrite is exact |
| LongStay.EndedStayExample | internal/store/visits.go:32-102 | four points of that kind |
| VisitScheduler.ProcessedIsFullIff | internal/tasks/visit_scheduler.go:288-329 | the same law with or without a window; a device's first rewrite has none and is always exact |
| VisitRounds.RoundsExactIff | internal/tasks/visit_scheduler.go:288-329 | over any rounds of incoming points, late or not, before a run or during it, and runs that finish or fail, the stored visits are always the detection of the points they were made from if and only if no rewrite was disturbed before its window |
| VisitRounds.ScheduledIsFull | internal/tasks/visit_scheduler.go:288-329 | then, after any run that completes, they are what a full rebuild over all points gives |
| VisitRounds.RunCurrentIff | internal/tasks/visit_scheduler.go:288-329 | from any tables whatever, a run that rewrites leaves what a full rebuild would if and only if its window is right |
| VisitRounds.FrozenBefore | internal/store/visits.go:60-73 | as long as windows open at a time or later, the stored visits from before it stay as they are, and the tables are right in the end only if these were already |
| LatePoints.BacklogIsLost | internal/tasks/visit_scheduler.go:309-321 | a late stay that is not stored makes every later run leave less than a full rebuild, until a window opens before it |
| LatePoints.LatePointInside | internal/store/visits.go:60-73 | a late point inside a stored visit is always missed |
| LatePoints.BacklogExample | internal/tasks/visit_scheduler.go:309-321 | a late stay uploaded together with the next point is lost in this way |
| LatePoints.HealingExample | internal/tasks/visit_scheduler.go:309-321 | uploaded by itself it is missed by one run and found by the next |
| VisitScheduler.Scheduler.ProcessDevice | internal/tasks/visit_scheduler.go:288-329 | skips exactly up-to-date devices, otherwise rewrites the window over all points committed by then and moves the watermark to what it had read before; an early error changes nothing, a late one leaves only the watermark behind; without an error it does not fail |
| VisitScheduler.UpToDateIff | internal/tasks/visit_scheduler.go:288-306 | a device is up to date if and only if it has no point numbered above its watermark |
| VisitScheduler.WindowStartIff | internal/tasks/visit_scheduler.go:308-318 | the window opens at a time if and only if that is a lookback before the time of the device's last processed point |
| VisitScheduler.Scheduler.RebuildVisitsForDeviceRange | internal/store/visits.go:32-102 | the window's points as `QueryIff` says, their visits as `DetectedIff` says, deletion and insertion in one transaction, or no change, which takes an error |
| VisitScheduler.Scheduler.SelectDeviceBatch | internal/tasks/visit_scheduler.go:353-368 | the next devices in turn, or all when they fit |
| VisitScheduler.Scheduler.RunOnce | internal/tasks/visit_scheduler.go:173-217 | every picked device is processed, in turn, and the counters are those of what was done to each: skipped, updated with so many visits, or failed; nothing happens while another run is under way or when the devices cannot be listed |
| VisitScheduler.Scheduler.Loop | internal/tasks/visit_scheduler.go:108-134 | the scheduler's runs one after the other: as long as the devices table reads the same, enough runs to add up to its length process every device |
| VisitScheduler.EveryDeviceIsPicked | internal/tasks/visit_scheduler.go:360-366 | any consecutive cursor positions that add up to the list's length pick every index |
| VisitScheduler.PickedDistinct | internal/tasks/visit_scheduler.go:360-365 | a batch never holds a device twice |
| VisitScheduler.SortedUniqueFirst | internal/tasks/visit_scheduler.go:331-343 | only positive ids, each by its first occurrence |
| VisitScheduler.SortedUniqueIds | internal/tasks/visit_scheduler.go:331-351 | strictly ascending, with every positive id present |
| RateLimit.FixedWindowLimiter.Allow | internal/api/rate_limit.go:49-84 | every call gets the answer its place in the trace of all calls gives it, unlimited when not configured |
| RateLimit.ClientsAreIndependent | internal/api/rate_limit.go:53-83 | a call gets the answer it would get if only calls with the same trimmed key had been made, a blank key counting as unknown |
| RateLimit.OneBudgetPerClient | internal/api/rate_limit.go:53-83 | all spellings of a key that trim to the same share one budget: a span of one window admits at most twice the limit minus one of their calls |
| RateLimit.FixedWindowLimiter.MaybeCleanup | internal/api/rate_limit.go:86-95 | removes exactly the entries two windows old, once the map is large |
| RateLimit.SweepIsInvisible | internal/api/rate_limit.go:63-95 | cleanup never changes an answer |
| RateLimit.LessThanTwiceTheLimit | internal/api/rate_limit.go:63-83 | any span of one window admits at most twice the limit minus one per key |
| RateLimit.BurstReachesBound | internal/api/rate_limit.go:63-83 | for every limit a trace of calls that reaches it |
| RateLimit.RetryAfterIsExact | internal/api/rate_limit.go:73-79 | after a denial the key is denied exactly until the returned time |
| Paging.DownsampleRecentPoints | internal/api/points.go:348-370 | keeps exactly the requested number of points at strictly increasing positions, first and last included, each the nearest to its evenly spread mark, halves going up |
| Paging.SampleIsNearest | internal/api/points.go:355-359 | a position is picked for a mark if and only if, in whole numbers, it is the nearest to it or the later of two equally near ones |
| Paging.SampleIncreasing | internal/api/points.go:355-362 | rounded positions increase strictly, so the loop's clamps never act |
| Paging.PointsPage | internal/api/points.go:121-143 | samples the fetched page and hands out its last row's number as cursor, sampling or not |
| Paging.PagingCompleteIff | internal/store/points.go:88-129 | following the cursor returns every row once and in order if and only if the page size and the boundaries allow it |
| Paging.CapHidesTheRest | internal/api/points.go:121-143 | at a page size of 5000 every row after the first page is out of reach |
| Paging.OneRowTooMany | internal/api/points.go:35 | the 5001 rows that show it |
| Paging.FetchAllIsPages | internal/api/points.go:98-143 | a client that follows the cursor gets this page and then everything from the handed-out cursor on, which always moves forward |
| Paging.InOrderIsPageable | internal/store/points.go:120-128 | when numbers follow time order, any page size below the cap pages completely |

## Left out

* Power loss: a crash here loses RAM and keeps written bytes; how much may be unsynced is bounded in `UnsyncedBounded`, but losing it is not a step.
* A write cut exactly before the newline, which reads as a whole line until the next one is added to it.
* The bytes of cut lines in a segment's size; a crash in the middle of a write, which is an append that fails followed by a crash.
* Compaction and appending in a directory with stray names; there the directory is keyed by number (`OwnNamesReplay`).
* Empty segment files left by a crash between opening a file and its first line.
* JSON, SHA-256, SQLite and the file system below the level of rows and records; 64-bit wrap-around of sequence numbers.
* Optional sensor fields, `received_at`, `last_seen_at` and the fallback for points without a timestamp.
* Timestamps are integers; the program compares RFC 3339 strings, which agree with time order only for equal fraction widths.
* Floating point: coordinates, means and sampling steps are exact reals.
* HTTP routing, sessions, login, CSRF, exports, geocoding, user interface, migrations and configuration: they neither hold nor move location records between the stages modelled here.
* Goroutines, tickers and shutdown deadlines, other than as the choice of the next step.
* `GET /visits` listing and the scheduler's status fields.
