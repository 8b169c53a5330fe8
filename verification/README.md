# A Dafny model of toymq

toymq is a message broker. A topic is split into partitions; each partition is a segmented
write-ahead log (WAL) with a group committer, recovered by scanning its files after a crash and read
by tailing readers. On top of it every consumer has acked offsets, an in-flight map bounded by a
window, redelivery after a visibility timeout and dead-lettering; the offsets are persisted from time
to time. In a cluster the mutating commands travel through a raft log, and a restarted node applies
that log again from index 1 over the WALs it recovered.

This project models those parts and proves what they promise. Main results are statements over every
run: a run is any sequence of steps of a state machine, and everything the code does not control (a
failed write or fsync, how many bytes a power loss leaves, when a goroutine is scheduled, the clock)
is an argument of a step. Code that updates fields in place is a class or a method with loops, proved
against those machines.

`dafny verify dfyconfig.toml` checks all of it. The files build on each other in this order:

- `Bytes`, `Codec`, `Stream`: little-endian integers, one WAL frame, a stream of frames. The checksum
  is a parameter: no result depends on which function it is.
- `Wal`, `WalSafety`, `WalTheorems`, `Recovery`, `Log`: the log as a state machine, the invariant of
  all its runs, what follows from it, the byte-level recovery, and the `Log` object.
- `WalShape`: what a log keeps in every sync mode and after kills with unsynced bytes, by comparing it with
  a log that fsyncs all it writes.
- `Reader`, `Retention`, `WalGaps`: readers interleaved with the log; retention decided from a stale
  snapshot; when a power loss keeps the log from opening or leaves MsgIDs missing.
- `Consumer`, `Delivery`, `Offsets`, `Resume`, `Pipeline`: acks and nacks of one consumer, its delivery
  goroutines, the offsets file, offsets against the log across crashes, and all of it from log to consumer.
- `Dedupe`, `ReplaySpec`, `Shards`, `Replay`: the dedupe index and its rebuild; applying and replaying
  the raft log with a power loss at any point, also between the system calls of one append.
- `ReplayFailures`, `ReplayExact`, `ReplayKills`: the same with failing writes and fsyncs, with kills and in
  every sync mode, by comparing a node with one that has fsynced everything.
- `ReplayCap`, `ReplayWindow`, `ReplayAnyCap`, `ReplayLoss`, `ReplayLimits`: the main results about replay, for
  a dedupe index of any size, by comparing a node with one that has room for every key: exactly when replay is
  right, in terms of the raft log, of what was recovered, and of the world before a power loss; and runs in
  which it is not.
- `Broker`: the `Broker` object against that machine.
- `Envelope`, `Text`, `Wire`, `PubWire`: the raft command envelope and the client protocol.

## Where the code and its comments differ

The model follows the code. The following do not hold as the comments or the names suggest; each has a
lemma with a concrete run, one with the exact condition, or both:

- A sealed segment is said to be durable in every sync mode (internal/wal/log.go:293-295). Without
  fsync it is not (`WalTheorems.NoSyncIsNotDurable`); the durability promise holds exactly in the other
  modes (`WalTheorems.DurableIff`).
- A killed process reopens bytes it never fsynced as committed (internal/wal/recovery.go:55). The next
  rotation then seals them without an fsync, and a later power loss can keep the log from opening, in
  every sync mode (`WalTheorems.KillBreaksDurability`). It is safe if and only if nothing was unsynced
  (`WalTheorems.KillSafeIff`); the durability theorems ask for that at each kill and for nothing at a power
  loss.
- Worse, the log can open and be silent: a sealed file that lost its end leaves a hole, and a reader opened
  at the floor steps over it (`WalGaps.NoSyncLeavesHole`, `WalGaps.KillLeavesHole`,
  `WalGaps.ReaderStepsOverHole`). Whether the log opens is `WalGaps.OpensIff`; whether it can have a hole is
  `WalGaps.NoGapIff`. What does not concern durability holds in every mode and after every kill, as long as
  no power loss has cut a sealed file.
- A log whose retained files hold no record starts again at MsgID 0 (internal/wal/recovery.go:52-54), so
  offsets acked before speak about the wrong records (`WalTheorems.MsgIDsCanStartOver`). Whether that can
  happen is decided before the power loss (`WalTheorems.DenseRestartIff`, `Resume.CoversPowerLossIff`).
- A reader opened past the committed end does not wait for the id it was given but delivers from the
  committed end (internal/wal/reader.go:64-67; `Reader.OpenedReaderDelivers`, `Reader.ReaderOpensAnywhere`).
- A failed write of the offsets file loses the dirty flags it had cleared, so no later tick repairs the
  file (internal/broker/offsets.go:51-60; `OffsetsFile.FailedFlushForgets`,
  `OffsetsFile.FailedFlushStaysStale`, and `OffsetsFile.FlushOutcomeIff` for when it does no harm).
- Recovery does not replay the recency bumps of dedupe hits (internal/broker/partition.go:82-86), so a
  rebuilt index can forget a key the live one knew (`Dedupe.RestartForgetsHit`, `Dedupe.AgreesIff`), and a node
  that restarted logs a publish its peers answered as a duplicate (`ReplayLimits.RestartLogsAgain`). The raft
  logs on which that cannot happen are exactly those of `ReplayWindow.ExactIff`.
- One high-water mark covers all partitions (internal/broker/broker.go:630-634). With a failed fsync in
  one of them a replayed publish is skipped although its record is gone
  (`ReplayLimits.LostAfterFailedFsync`), or a duplicate is logged (`ReplayLimits.ExtraAfterFailedFsync`). A
  kill between write and fsync has the same effect without any failure (`ReplayLimits.LostAfterKill`). When
  the replay is right all the same is `ReplayAnyCap.AnyRunIff`, with kills and in every mode
  `ReplayAnyCap.AnyActsIff`, and in terms of the world before the power loss `ReplayLoss.SafeAfterRunIff`.
- Carriage returns at the end of an ERR reason or an INFO line do not arrive (`Wire.ArrivesIff`), nor does
  a literal `-` key or a WAIT timeout without a replica count (`PubWire.PubArrivesIff`).

## Model

| member | source | states |
|---|---|---|
| `Codec.EncodeRecord` | internal/wal/record.go:60-113 | the buffer grows by exactly the frame of the record, and the call fails exactly for a key over 65535 bytes or a frame over 4 MiB, leaving the buffer alone |
| `Codec.DecodeRecord` | internal/wal/record.go:119-171 | the reader-level decode agrees with the frame grammar in every case: clean end, short read, bad checksum, too large |
| `Codec.DecodeInner` | internal/wal/record.go:151-210 | the moving offset reads exactly the fields the layout names and accepts 0, 8 or 16 trailing bytes only |
| `Codec.DecodeFrame` | internal/wal/record.go:60-215 | decoding undoes encoding field for field, with or without the RaftIndex trailer, whatever bytes follow |
| `Codec.DecodeLegacy` | internal/wal/record.go:185-210 | frames written before the trailing fields existed decode with both of them zero |
| `Codec.DecodeTorn` | internal/wal/record.go:119-142 | a frame cut anywhere inside is a short read, cut before its first byte a clean end |
| `Codec.WalFramingIsLawful` | internal/wal/record.go:60-215 | the format has the laws the rest of the log uses, for every checksum function |
| `Stream.ScanPrefix` | internal/wal/recovery.go:63-113 | scanning any byte prefix of encoded records yields exactly the whole frames in it, then end of file on a boundary and a short read anywhere else |
| `Stream.WholeIsMaximal` | internal/wal/recovery.go:63-113 | the number of whole frames in a prefix is the largest that fits |
| `WalSafety.AppendKeeps` | internal/wal/log.go:211-285 | an append, rotating or not, with any outcome of its system calls, keeps the log invariant and only extends the files |
| `WalSafety.FlushSnapKeeps` | internal/wal/log.go:356-364 | the locked snapshot of a flush keeps the invariant |
| `WalSafety.FlushSyncKeeps` | internal/wal/log.go:366-366 | the unlocked fsync keeps the invariant even when rotations or drops overtook it, and when it fails |
| `WalSafety.FlushPublishKeeps` | internal/wal/log.go:368-381 | publishing the snapshot keeps the invariant although the segment may have been sealed since |
| `WalSafety.DropKeeps` | internal/wal/retention.go:74-101 | dropping segments keeps the invariant |
| `WalSafety.PowerLossKeeps` | internal/wal/recovery.go:24-57 | reopening after a power loss that leaves the fsynced bytes and any prefix of the rest re-establishes the invariant |
| `WalSafety.KillKeepsIff` | internal/wal/recovery.go:55-55 | reopening after a kill re-establishes the log invariant if and only if every written byte was fsynced |
| `WalSafety.RunKeeps` | internal/wal/log.go:211-381 | the invariant holds after every run of appends, flush phases, drops, power losses and clean kills |
| `WalTheorems.CommitProtocol` | internal/wal/log.go:251-381 | after every run in a fsyncing mode with clean kills, committed is within the durable bytes, at or above the active base, on a record boundary, and covers every append that succeeded; no step but a crash moves it back |
| `WalTheorems.PowerLossRecovers` | internal/wal/recovery.go:24-57 | from any state that satisfies the invariant, recovery keeps a prefix of the stream with every acked record |
| `WalTheorems.Durability` | internal/wal/recovery.go:24-57 | after any run and any power loss the log opens with a prefix of what was written that holds every successful append, cut in the active segment only, with dense MsgIDs |
| `WalTheorems.DurableIff` | internal/wal/log.go:251-284 | that promise, for all runs and all power losses, holds if and only if the sync mode is not the one without fsync, at every segment cap |
| `WalTheorems.DenseRestartIff` | internal/wal/recovery.go:52-54 | after every run, MsgIDs go on after the recovered records whatever a power loss leaves if and only if, before it, nothing had been dropped, a sealed segment was retained, or a record of the active one was fsynced |
| `WalTheorems.FlushReleases` | internal/wal/log.go:356-381 | one successful flush commits everything written, so every blocked appender can return |
| `WalTheorems.KillSafeIff` | internal/wal/recovery.go:55-55 | every record a killed process reopens as committed survives every later power loss if and only if every written byte was fsynced |
| `WalTheorems.NoSyncLoses` | internal/wal/log.go:251-284 | without fsync one successful append and a power loss lose the record, at every segment cap |
| `WalTheorems.NoSyncIsNotDurable` | internal/wal/log.go:305-312 | without fsync, at every cap that makes the second append rotate, a sealed segment can be torn and the log fails to open |
| `WalTheorems.KillBreaksDurability` | internal/wal/log.go:305-312 | in both durable modes, at every cap that makes the next append rotate, a kill between write and fsync, then that rotation and a power loss, can leave a log that does not open |
| `WalTheorems.MsgIDsCanStartOver` | internal/wal/recovery.go:52-54 | at every cap that makes the second append rotate, a run after which MsgIDs restart at 0 below an acked one |
| `WalTheorems.KillIsPowerLoss` | internal/wal/recovery.go:24-57 | a kill with everything fsynced is a power loss that loses nothing |
| `WalShape.StepAlike` | internal/wal/log.go:211-381 | logs that differ in what was fsynced and acked only stay so, one in the mode without fsync and the other fsyncing every append, under appends with any outcome, flush phases, drops and kills |
| `WalShape.RunShapes` | internal/wal/log.go:211-381 | in every sync mode, after any run whose power losses cut active files only, killed at any time, segments, offsets and MsgIDs are as the invariant says |
| `WalShape.DurableSealsSurvive` | internal/wal/log.go:302-321 | in the fsyncing modes with clean kills every power loss is of that kind |
| `WalShape.KillLosesNothing` | internal/wal/log.go:24-27 | the SIGKILL promise, in every mode: after any run without a power loss the killed log reopens with the same records, all committed, and every acked one that was not dropped |
| `WalShape.NoSyncCommits` | internal/wal/log.go:24-27 | without fsync everything written is committed at every moment |
| `WalShape.CommitRules` | internal/wal/log.go:251-381 | in every sync mode and after any kills, as long as power losses cut active files only, committed is at or above the active base, within the written bytes and on a record boundary, and no step of a living process moves it back; without a power loss it covers every append that succeeded |
| `WalShape.SegmentsPartition` | internal/wal/log.go:222-249 | in every sync mode, after any run whose power losses cut active files only, segments split the stream at record boundaries, bases are the cumulative lengths and MsgIDs, and a segment is within the cap or holds one record |
| `WalShape.BytesPartition` | internal/wal/log.go:222-249 | the byte half of that at every moment of every run at all, whatever crashes cut |
| `Recovery.RecoverSegment` | internal/wal/recovery.go:63-113 | the scan loop returns the whole frames, the offset of the last one, why it stopped, and the two maxima |
| `Recovery.Recover` | internal/wal/recovery.go:24-57 | the loop over the files rebuilds bases, next MsgID and committed offset, and rejects a torn sealed file |
| `Recovery.RecoverAgrees` | internal/wal/recovery.go:24-113 | byte-level recovery of the surviving files is the record-level reopening, visiting records in MsgID order |
| `Recovery.CrashRecovery` | internal/wal/recovery.go:24-113 | bytes to bytes: for any run and any power loss, opening the directory yields the log that Durability describes |
| `Log.Log.constructor` | internal/wal/log.go:143-200 | a new log is the machine's empty state |
| `Log.Log.Rotate` | internal/wal/log.go:302-321 | sealing fsyncs and commits exactly when bytes are pending, fails on either system call, and opens the next segment at the current offset and MsgID |
| `Log.Log.WriteRecord` | internal/wal/log.go:236-248 | the active segment, its maxima, the next MsgID and the write offset after a write |
| `Log.Log.FenceRecord` | internal/wal/log.go:251-284 | what each sync mode commits and acknowledges once the record is written |
| `Log.Log.Append` | internal/wal/log.go:211-285 | the object's new state is the machine's append step; success means committed and recorded, failure acknowledges nothing; the invariant is kept |
| `Log.Log.Recheck` | internal/wal/log.go:257-266 | a woken appender succeeds exactly when its end offset is committed, fails on the sticky error, and waits otherwise |
| `Log.Log.FlushSnapshot` | internal/wal/log.go:356-364 | first critical section of a flush |
| `Log.Log.FlushFsync` | internal/wal/log.go:366-366 | the fsync acts on the snapshotted segment, and fails if retention closed it |
| `Log.Log.FlushPublish` | internal/wal/log.go:368-381 | second critical section: sticky error, or committed raised and never lowered |
| `Log.Log.FindCut` | internal/wal/retention.go:78-85 | the cut loop stops where the machine's drop does, the active segment at the latest |
| `Log.Log.DropSegmentsBefore` | internal/wal/retention.go:74-101 | exactly the segments below the clamped index go; count and new floor are reported |
| `Reader.OpenReader` | internal/wal/reader.go:38-86 | the segment search and the scan report out of range exactly below the floor, and otherwise stop at the record asked for or at the committed end |
| `Reader.ReadKeeps` | internal/wal/reader.go:111-168 | one stretch of the reader returns the next record in order, committed, or none |
| `Reader.RollsToSuccessor` | internal/wal/segment.go:125-150 | a sealed file read to its limit continues in the very next segment, never past a dropped one |
| `Reader.ReadableLenIs` | internal/wal/segment.go:139-150 | the readable length of the active file is what is committed, of a sealed one its own length unless its successor was dropped |
| `Reader.ReaderNeverSkips` | internal/wal/reader.go:38-168 | in every sync mode and after any kills, a reader opened between floor and committed end returns exactly that id and its successors under any interleaving; it fails only once the next record is behind the floor |
| `Reader.OpenedReaderDelivers` | internal/wal/reader.go:64-67 | the first record delivered is the one asked for if and only if it was not past the committed end |
| `Reader.ReaderOpensAnywhere` | internal/wal/reader.go:38-168 | in every sync mode, with the log moving while it opens and reads, a reader opened at any id from the floor on returns consecutive committed records from that id, or, if it was past the committed end, from an id between that end and the one asked for |
| `Reader.ReaderDelivers` | internal/wal/reader.go:111-168 | a reader before a committed record of a retained segment returns it within four stretches, rolling to the next file if need be |
| `Reader.NoSyncDelivers` | internal/wal/log.go:24-27 | without fsync every record written can be read at once |
| `WalGaps.OpensIff` | internal/wal/recovery.go:24-57 | after every run in every sync mode, the log opens whatever a power loss leaves if and only if, before it, every retained sealed file had been fsynced to its end |
| `WalGaps.NoGapIff` | internal/wal/recovery.go:24-57 | in every sync mode, no power loss leaves a hole in a log that opens if and only if, before it, every retained sealed file with a record behind it had been fsynced to its end |
| `WalGaps.NoSyncLeavesHole` | internal/wal/log.go:302-321 | without fsync, at every cap that makes the second append rotate, a power loss can leave MsgID 1 without MsgID 0 in a log that opens |
| `WalGaps.KillLeavesHole` | internal/wal/recovery.go:55-55 | in both fsyncing modes a kill between write and fsync, the next rotation and a power loss do the same |
| `WalGaps.ReaderStepsOverHole` | internal/wal/reader.go:111-168 | a reader opened at the floor of such a log returns the record after the hole first |
| `Retention.KeepIndexByBytes` | internal/broker/retention.go:182-196 | keeps exactly the newest segments within the byte budget, and always the last |
| `Retention.KeepIndexByAge` | internal/broker/retention.go:202-220 | drops exactly the leading sealed segments that are all older than the cutoff |
| `Retention.OldestUnfiredDelay` | internal/broker/retention.go:168-176 | the guard protects exactly the segments at or behind one with an unfired delay |
| `Retention.RetentionKeepIndex` | internal/broker/retention.go:139-161 | a segment goes exactly when a policy evicts it, it is sealed and no pending delay protects it |
| `Retention.SegmentInfosIsSnapshot` | internal/wal/retention.go:44-61 | the infos of a log in a reachable state have increasing indexes and one active segment, the last |
| `Retention.DropToExact` | internal/wal/retention.go:74-101 | a drop removes exactly the sealed segments below the index |
| `Retention.StaleSweepIsSafe` | internal/broker/retention.go:102-132 | in every sync mode, a drop decided from a snapshot that appends, rotations and drops have overtaken removes a prefix of sealed segments, each rightly: over budget or all too old, and with nothing waiting to fire |
| `Consumer.CanonicalUnique` | internal/broker/consumer.go:112-139 | a set of acked ids has one canonical offsets value |
| `Consumer.AckCanonical` | internal/broker/consumer.go:112-139 | an ack keeps the offsets canonical for the acked set with the id added |
| `Consumer.AcksCanonical` | internal/broker/consumer.go:112-139 | after every ack sequence the offsets are the canonical form of the acked set |
| `Consumer.AckOrderIrrelevant` | internal/broker/consumer.go:112-139 | the same acks in any order, with repetitions, leave the same offsets |
| `Consumer.ConsumerState.constructor` | internal/broker/consumer.go:54-63 | a new consumer has acked nothing and holds nothing |
| `Consumer.ConsumerState.SignalWake` | internal/broker/consumer.go:91-96 | the wake token is set |
| `Consumer.ConsumerState.AckMessage` | internal/broker/consumer.go:112-139 | succeeds exactly for in-flight ids; the drain loop yields the ack step |
| `Consumer.ConsumerState.NackOrKill` | internal/broker/consumer.go:149-171 | redelivers with one more attempt, or removes at the threshold, or reports not in flight |
| `Consumer.ConsumerState.CollectExpired` | internal/broker/redelivery.go:78-118 | a sweep hands out exactly the timed-out entries, redelivered as they now stand or dead as they were, and does nothing when paused or unsubscribed |
| `Consumer.SweepInflight` | internal/broker/redelivery.go:93-117 | the loop over the map has one outcome whatever order the map yields |
| `Consumer.SweepIsOneByOne` | internal/broker/redelivery.go:78-118 | the locked sweep is the expiry of its entries one at a time in any order |
| `Delivery.RunKeeps` | internal/broker/partition.go:245-358 | the delivery invariant holds after every run of subscriptions, deliveries, acks, nacks, timeouts, pauses and dead-letter moves |
| `Delivery.FlowControl` | internal/broker/consumer.go:71-107 | in every reachable state, across subscription swaps, at most one goroutine delivers, in-flight is within the window, and a parked goroutine with an open gate has a wake token or a signaller |
| `Delivery.ParkedGetsThrough` | internal/broker/consumer.go:71-86 | such a goroutine gets through without help from the client |
| `Delivery.DeadLettering` | internal/broker/broker.go:1002-1029 | attempts stay within 1 and the threshold, a message dies on exactly the threshold-th failure, each death is one append attempt of the same payload to the .dlq topic, and .dlq topics never dead-letter |
| `Delivery.NothingVanishes` | internal/broker/redelivery.go:29-118 | a running subscription has delivered every id from its start to its cursor, but for the one it may be sending, and each is in flight, acked or dead-lettered |
| `OffsetsFile.RunKeeps` | internal/broker/offsets.go:22-87 | the dirty-flag invariant holds for every interleaving of acks with the phases of a flush |
| `OffsetsFile.QuietFileIsCurrent` | internal/broker/broker.go:476-507 | with no flush and no ack running, no dirty consumer and no failed flush, the file is exactly memory |
| `OffsetsFile.FlushOutcomeIff` | internal/broker/offsets.go:51-87 | at the end of any flush of any run the file is current for every consumer without unsaved changes if and only if the write succeeded or the old file already held their snapshot |
| `OffsetsFile.FlushRunsThrough` | internal/broker/offsets.go:51-87 | a tick that finds something dirty and whose write succeeds leaves nothing dirty and the file equal to memory |
| `OffsetsFile.FailedFlushForgets` | internal/broker/offsets.go:51-60 | a run from an empty file through a failed write: nothing runs, nothing is dirty, and the file lacks the ack |
| `OffsetsFile.FailedFlushStaysStale` | internal/broker/broker.go:476-507 | and no sequence of later ticks repairs it without a new ack, nack or timeout |
| `OffsetsFile.CleanStaysUnflushed` | internal/broker/broker.go:476-507 | with nothing dirty and no new ack, nack or timeout, no later tick writes the file |
| `OffsetsFile.SnapshotEntry` | internal/broker/offsets.go:22-46 | the sparse acks are written as an increasing list of the same ids |
| `OffsetsFile.LoadEntry` | internal/broker/offsets.go:89-118 | loading an entry restores the offsets it was made from |
| `Resume.StepKeeps` | internal/broker/partition.go:245-318 | every step, in every sync mode, keeps acked ids, in memory and on disk, on committed records the consumer acked; a crash must leave what was committed and some record |
| `Resume.ResumeNeverSkips` | internal/broker/partition.go:207-222 | after any run with such crashes the start id skips no retained record the consumer has not acked, and out of range is reported exactly to a consumer that has acked before and lost an unacked record to retention |
| `Resume.DurableRunsAllowed` | internal/wal/recovery.go:24-57 | in the fsyncing modes with clean kills no power loss takes what was committed, so these results hold of every such run in which MsgIDs do not start over |
| `Resume.ResumeStartsUnacked` | internal/broker/partition.go:207-222 | nor does it start too early: a consumer with a contiguous run of acks resumes at the first id it has not acked |
| `Resume.ResumedConsumerGetsAll` | internal/broker/partition.go:245-318 | resuming and reading together: after any run with crashes the reader opened at the start id hands over every retained committed record the consumer has not acked, each in its place, however the log moves |
| `Resume.OffsetsNeverOutrun` | internal/broker/offsets.go:22-118 | an acked id on disk was dropped by retention or names a committed record |
| `Resume.CoversPowerLossIff` | internal/wal/recovery.go:52-54 | a consumer's acks stay valid whatever a power loss leaves if and only if, before it, nothing had been dropped, a sealed segment was retained, or a record of the active one was fsynced |
| `Pipeline.EveryRecordIsAccountedFor` | internal/broker/partition.go:207-318 | log, reader, resuming and delivery composed: after any run with crashes and any interleaving after it, while a subscription runs every retained record is acked, in flight, dead-lettered, or at or ahead of its cursor, and what lies behind the cursor it read from the log, committed and with that payload |
| `Dedupe.DedupeIndex.constructor` | internal/broker/dedupe.go:22-28 | an empty index of the given capacity |
| `Dedupe.DedupeIndex.MoveToFront` | internal/broker/dedupe.go:37-37 | the list and the map still agree and the element is first |
| `Dedupe.DedupeIndex.Lookup` | internal/broker/dedupe.go:32-39 | the list-and-map index refines the recency list: a hit returns its id and moves the key to the front |
| `Dedupe.DedupeIndex.Insert` | internal/broker/dedupe.go:43-61 | likewise: the key goes to the front with its new id and the oldest entry is evicted over capacity |
| `Dedupe.DedupeIndex.Update` | internal/broker/dedupe.go:44-48 | overwriting a present key evicts nothing |
| `Dedupe.DedupeIndex.RemoveOldest` | internal/broker/dedupe.go:53-60 | exactly the last entry leaves list and map |
| `Dedupe.ApplyPublish` | internal/broker/partition.go:119-156 | a hit returns the logged id without an append; a miss appends and remembers only on success |
| `Dedupe.RebuildIndexes` | internal/broker/partition.go:82-86 | one visited record updates the index, a record without a key leaves it alone |
| `Dedupe.OpenPartition` | internal/broker/broker.go:624-647 | visiting the retained records builds the rebuilt index |
| `Dedupe.EntriesAreLatest` | internal/broker/partition.go:119-156 | in every run, with failed appends and restarts from any retained part, each entry names the latest logged record with its key, keys are distinct and the capacity holds |
| `Dedupe.RebuildFromFloor` | internal/broker/partition.go:82-86 | dropped segments only cut the stale end off the rebuilt index |
| `Dedupe.AgreesIff` | internal/broker/partition.go:82-86 | a step keeps the rebuilt index equal to the live one, order included, if and only if it is no hit below the front, no failed append of a key, and no restart that lost an entry |
| `Dedupe.RebuiltIsLive` | internal/broker/partition.go:119-156 | recovery would rebuild the live index, order included, at every moment of a run if and only if all its steps are of that kind |
| `Dedupe.RebuiltHoldsIff` | internal/broker/partition.go:82-86 | a record is in the rebuilt index if and only if fewer than cap distinct keys were logged after it, and their number is its place |
| `Dedupe.RestartForgetsHit` | internal/broker/dedupe.go:37-37 | a run after which the live index knows a key and the rebuilt one does not |
| `ReplaySpec.SpecOk` | internal/broker/partition.go:119-156 | in an uninterrupted run every record is the stamp of its own command in its own partition, with dense MsgIDs and increasing raft indexes |
| `ReplaySpec.SpecGrows` | internal/replication/statemachine.go:70-110 | applying commands only extends logs and adds topics |
| `ReplaySpec.AppliedOrInert` | internal/broker/broker.go:272-292 | an applied command left its record or changes nothing when applied again, however much later |
| `ReplaySpec.IndexOnce` | internal/broker/broker.go:272-292 | one raft index names one record |
| `Shards.AppendAdds` | internal/wal/log.go:211-285 | an append that the file system lets through adds exactly its record, committed at once or pending |
| `Shards.AppendWrites` | internal/wal/log.go:211-285 | the same over a log with failed appends behind it |
| `Shards.QuietRetains` | internal/wal/log.go:356-381 | committer steps and returns change no record and uncommit nothing |
| `Shards.CrashRestores` | internal/wal/recovery.go:24-57 | after any failures before it, recovery restores everything committed, and at most the last record is lost while it is pending |
| `Shards.CrashSound` | internal/wal/recovery.go:24-57 | whatever failed before, recovery yields a settled log without errors that holds a prefix of the records |
| `Shards.KnowsRebuilt` | internal/broker/broker.go:624-637 | with at most cap distinct keys in a log the rebuilt index knows them all |
| `Replay.ReplayedPublish` | internal/broker/broker.go:283-292 | on whatever logs were recovered, a replayed publish is skipped exactly at or below the high-water mark and otherwise acts as an uninterrupted run would |
| `Replay.LostRecordReturnsIff` | internal/broker/broker.go:283-292 | a record a crash lost is written again if and only if its index is above the recovered high-water mark and the command still writes |
| `ReplayFailures.AnyRunRestarts` | internal/broker/broker.go:624-647 | in the fsyncing modes, after any run with any failing writes and fsyncs, any power loss leaves settled logs whose records are stamps of their commands, the index rebuilt from them and the mark at the largest raft index; with at most cap distinct keys in a partition the index is complete |
| `ReplayExact.FoldIsSpecIff` | internal/broker/broker.go:272-292 | that result is an uninterrupted run of the whole log if and only if the recovered records have exactly the raft indexes of an uninterrupted run up to the mark |
| `ReplayKills.NoIndexTwice` | internal/broker/broker.go:276-292 | no raft index is written twice, in one partition or across them, in any run: with failing writes and fsyncs, kills at any point, in every sync mode and with an index of any size, as long as power losses cut active files only |
| `ReplayCap.RemembersIff` | internal/broker/dedupe.go:32-61 | the index rebuilt from a sequence of uses holds a key if and only if fewer than cap other keys were used after its last use |
| `ReplayCap.UsesKnown` | internal/broker/partition.go:119-156 | every key a node takes for used, since its last restart, is in the log of its partition |
| `ReplayWindow.ExactIff` | internal/broker/broker.go:283-324 | at every moment of every run without failures the logs are those of an uninterrupted run of a prefix that covers everything applied, and of the whole log once it is applied, if and only if each publish that repeats a logged key finds it among the last cap keys used in its partition, whichever record the node last restarted after; with deaths anywhere, also inside an append, by kills in every sync mode or by power losses in the fsyncing ones |
| `ReplayWindow.ForgottenIsLogged` | internal/broker/partition.go:119-156 | where that fails there is such a run in which the first forgotten publish is logged again |
| `ReplayWindow.ReachMark` | internal/replication/statemachine.go:70-110 | a node can restart after any record of the uninterrupted run and then apply every command up to the first forgotten one, a batched one with the flush it waits for |
| `ReplayWindow.RoomIsEnough` | internal/broker/dedupe.go:22-28 | with at most cap distinct keys in each partition nothing is forgotten |
| `ReplayWindow.ReplicasAgree` | internal/replication/statemachine.go:70-110 | two nodes that applied the same log and forget no key of it hold the same records, whatever the sync mode, index size and deaths of each |
| `ReplayAnyCap.ReplayFoldsIff` | internal/broker/broker.go:283-324 | an undisturbed replay over whatever was recovered yields the recovered logs with each command above the mark applied once, if and only if none of them is forgotten |
| `ReplayAnyCap.ReplayIff` | internal/broker/broker.go:283-324 | it yields the logs of an uninterrupted run if and only if the recovered records have exactly the raft indexes of such a run up to the mark and no later command is forgotten |
| `ReplayAnyCap.AnyRunIff` | internal/broker/broker.go:283-324 | the same in the fsyncing modes after any run with any failing writes and fsyncs and a power loss anywhere |
| `ReplayAnyCap.AnyActsIff` | internal/broker/broker.go:283-324 | the same in every sync mode and with processes killed at any point, unsynced bytes included, for power losses that cut active files only |
| `ReplayAnyCap.UninterruptedIff` | internal/replication/statemachine.go:70-110 | in every sync mode a run nothing disturbs ends with the specified logs if and only if no repeated key is forgotten |
| `ReplayAnyCap.StraightIff` | internal/replication/statemachine.go:70-110 | one command after the other, a batched one with the flush it waits for, reaches the end of the log with the specified logs if and only if no repeated key is forgotten |
| `ReplayLoss.SafeLossIff` | internal/broker/broker.go:624-637 | whatever a power loss takes of the active files, the recovered records are those of an uninterrupted run up to the recovered mark, if and only if before it they were right and no record that was not fsynced has one with a larger raft index in another partition |
| `ReplayLoss.SafeAfterRunIff` | internal/broker/broker.go:624-637 | that, between any two steps of any run with failures and kills in every sync mode |
| `ReplayLoss.SafeMidAppendIff` | internal/broker/broker.go:624-637 | that, between the system calls of an append |
| `ReplayLoss.SafeLossReplays` | internal/broker/broker.go:283-324 | where it holds and no key is forgotten, every power loss and every undisturbed replay after it end with the right logs |
| `ReplayLimits.LostAfterFailedFsync` | internal/broker/broker.go:624-637 | with one failed fsync, a run whose replay skips a lost record for good |
| `ReplayLimits.LostRunIsInexact` | internal/broker/broker.go:624-637 | at that run an index below the mark is missing and the replay ends with wrong logs |
| `ReplayLimits.ExtraAfterFailedFsync` | internal/broker/partition.go:119-156 | the condition is two-sided: after a failed fsync the key is not remembered, a duplicate is logged, and recovery has an index too many |
| `ReplayLimits.LostAfterKill` | internal/broker/broker.go:624-637 | without any failure, a kill between write and fsync and a later power loss lose a publish for good |
| `ReplayLimits.PowerLossMidAppend` | internal/wal/log.go:236-284 | a run without failures in which a record is in its file when the power fails and gone afterwards |
| `ReplayLimits.RestartLogsAgain` | internal/broker/partition.go:82-86 | with room for two keys, publishes of a, b, a, c, a: straight through the last one is a duplicate, and after a restart behind c it is logged again, so two runs of one node without any failure disagree |
| `Broker.Broker.constructor` | internal/broker/broker.go:390-457 | a broker on an empty data directory has no topic and high-water mark 0 |
| `Broker.Broker.AdvanceAppliedHighWater` | internal/broker/broker.go:317-324 | the mark is raised and never lowered |
| `Broker.Broker.Reopen` | internal/broker/broker.go:426-446 | opening a data directory opens every topic with all its partitions and leaves the mark at the largest raft index of all of them |
| `Broker.Broker.OpenPartition` | internal/broker/broker.go:624-647 | visiting a partition rebuilds its index and leaves the maximum of the mark and its raft indexes |
| `Broker.Broker.OpenPartitions` | internal/broker/broker.go:599-613 | the same for the partitions of a topic, in order |
| `Broker.ReopenIsCrash` | internal/broker/broker.go:426-446 | opening what a power loss left is the restart of the replay machine |
| `Broker.ReopenAfterAnyRun` | internal/broker/broker.go:426-446 | and in the fsyncing modes that holds at every moment of every run, whatever failed in it, also for a power loss inside an append |
| `Broker.Broker.OpenTopic` | internal/broker/broker.go:569-620 | a topic on disk keeps its count and is refused exactly when another is wanted; a new one gets the wanted count, or the default, at least one empty partition |
| `Broker.Broker.GetOrCreateTopic` | internal/broker/broker.go:512-527 | the topic exists afterwards, opened with the default count if it was absent |
| `Broker.Broker.ApplyCreateTopic` | internal/broker/broker.go:552-563 | creates once; an existing topic is an error exactly when its count differs |
| `Broker.Broker.ApplyPublish` | internal/broker/broker.go:283-292 | in every sync mode: skipped exactly at or below the mark; otherwise the machine's publish, up to the point where a batched append blocks, with duplicates answered from the index |
| `Broker.Broker.FinishPublish` | internal/broker/partition.go:137-155 | a blocked publish returns its id exactly when its bytes are committed, fails exactly on the sticky error, and then is the machine's finish step |
| `Envelope.Encode` | internal/replication/envelope.go:78-108 | appending field by field yields the layout |
| `Envelope.Decode` | internal/replication/envelope.go:114-141 | the checks up front and the fields agree with the parser in every error case |
| `Envelope.DecodeFields` | internal/replication/envelope.go:172-213 | the shared offset reads all fields in order, reports a short read at the first that does not fit, and trailing bytes |
| `Envelope.DecodeRouting` | internal/replication/envelope.go:172-190 | likewise for the first five fields |
| `Envelope.DecodeUndoesEncodeIff` | internal/replication/envelope.go:78-213 | decoding gives the envelope back if and only if its kind is known and its encoding at most 4 MiB |
| `Envelope.EncodeUndoesDecode` | internal/replication/envelope.go:78-213 | re-encoding any accepted byte string gives the same bytes |
| `Envelope.ExtensionRejected` | internal/replication/envelope.go:208-210 | a valid encoding with bytes behind it is trailing garbage, or too large |
| `Envelope.PrefixRejected` | internal/replication/envelope.go:121-123 | every proper prefix of a valid encoding is a short read |
| `Text.ReadPrintedLine` | internal/proto/parser.go:135-151 | a line without a newline inside is read back, and what follows it is untouched |
| `Text.FieldsOfJoin` | internal/proto/parser.go:25-25 | splitting at white space, Unicode white space included, undoes joining with single spaces |
| `Text.ParseUintDigits` | internal/proto/parser.go:214-217 | printed 64-bit numbers parse back, larger ones are refused |
| `Text.AtoiDigits` | internal/proto/parser.go:89-92 | printed ints parse back, larger ones are refused |
| `Wire.ReadPrinted` | pkg/client/frame.go:40-120 | reading a printed OK, DUP, ERR, MSG or INFO frame gives it back up to trailing carriage returns and leaves the rest of the stream |
| `Wire.ArrivesIff` | pkg/client/frame.go:46-46 | the client reads a printed frame unchanged if and only if no reason and no INFO line ends in a carriage return |
| `Wire.ReadAllPrinted` | pkg/client/frame.go:40-120 | a concatenation of printed frames is read back in order with the remainder untouched |
| `Wire.ReadMsg` | internal/proto/response.go:44-79 | a delivery frame round-trips for arbitrary payload bytes |
| `Wire.ReadErr` | internal/proto/response.go:83-100 | an ERR frame splits at the first space of its line |
| `Wire.WriteInfo` | internal/proto/response.go:107-126 | the loop prints the count and then every line |
| `Wire.ReadInfoLines` | pkg/client/frame.go:109-115 | the loop reads exactly the announced number of lines or fails |
| `Wire.Receive` | pkg/client/frame.go:40-120 | the reader's case analysis is the frame grammar |
| `Wire.ReceiveMsg` | pkg/client/frame.go:76-99 | the MSG case checks its five fields, then takes payload and newline |
| `PubWire.WritePub` | pkg/client/pub.go:39-97 | building the header by string updates prints the PUB frame |
| `PubWire.ScanOptions` | internal/proto/parser.go:166-201 | the token loop accepts DELAY and WAIT in any order, the last one winning, and nothing else |
| `PubWire.TargetBack` | internal/proto/parser.go:72-94 | a topic with or without a partition suffix parses back |
| `PubWire.ReadPrintedPub` | internal/proto/parser.go:153-245 | the server reads a printed PUB back, payload byte for byte, and leaves what follows |
| `PubWire.PubArrivesIff` | internal/proto/parser.go:210-217 | the server reads a printed PUB as sent if and only if no key is a literal dash, the replica count is not negative, and there is no timeout without a count |
| `PubWire.ReadAllPubs` | internal/proto/parser.go:11-17 | a pipeline of printed PUBs is read in order whatever their payloads hold |

## Left out

- The raft library itself, its peer transport and elections, and the WAIT barrier: taken as one apply goroutine, strict index order, and full replay on restart.
- ACK and NACK commands in the raft log: they need node-local in-flight entries and the clock, so replicas need not agree on them; replay covers PUB and CREATE.
- Topics a leader creates outside the raft log (subscribe, dead-letter moves) while it is replaying.
- Retention on a replicated partition: replay is stated for logs nothing has been dropped from.
- Runs that go on after a power loss has cut a sealed file: WalGaps says when that can happen and what the log is then; readers, retention, offsets and replay are stated for runs in which it has not.
- Partial writes while the process lives, failed removes, durability of directory entries, and the non-atomic meta.json: a write is all or nothing, and creating a topic is atomic.
- Truncating the torn tail on recovery is taken to be durable at once.
- Wrap-around of 64-bit counters: an append refuses MsgID 2^64; byte offsets and raft indexes stay below it.
- Dedupe: MsgIDs are positions in the log, so a log that starts again at 0 is one that became empty.
- File systems that drop unsynced pages when an fsync fails: a later fsync that succeeds covers what an earlier failed one left (`Wal.FsyncAt`).
- WalTheorems.CommitProtocol: the bound by the durable bytes needs a fsyncing mode and clean kills, since the other mode and a reopened process commit bytes they have not fsynced; WalShape.CommitRules has the rest without either.
- WalShape.SegmentsPartition: a power loss that cuts a sealed file can leave a hole in the MsgIDs, so they are stated for runs without one; WalShape.BytesPartition has the bytes for every run.
- WalSafety.KillKeepsIff: is about the log invariant; WalTheorems.KillSafeIff says what is lost.
- Replay.ReplayedPublish: speaks of an index that knows every key of its log; ReplayAnyCap.ReplayFoldsIff has indexes of any size.
- Replay.LostRecordReturnsIff: speaks of one command on whatever was recovered, with such an index; ReplayAnyCap.AnyRunIff has the whole replay.
- ReplayWindow.ExactIff: runs with kills and power losses together are ReplayAnyCap.AnyActsIff, because a kill can leave unsynced bytes that a later power loss takes (ReplayLimits.LostAfterKill).
- ReplayWindow.ReplicasAgree: nodes that forget the same keys at the same commands agree as well; stated for nodes that forget none.
- Log.Log.constructor: opens an empty directory only; module Recovery has the fields that reopening restores.
- Broker.Broker.constructor: opens an empty data directory only; Broker.Broker.Reopen opens one with topics.
- Broker.Broker.Reopen: takes every log as wal.Open has recovered it; an unreadable meta.json and a log that fails to open are left out, and so is a drop before the restart, which would make MsgIDs differ from positions.
- Broker.Broker.ApplyCreateTopic: every topic on disk has been opened by Reopen, so a topic that is not in the map is new.
- Reader.OpenReader: the method runs with the log standing still; Reader.ReaderOpensAnywhere has the interleavings.
- Reader.OpenedReaderDelivers: likewise, because with the log moving the id asked for may be committed in the meantime.
- Reader: context cancellation, the polling interval, and closing.
- Delivery: the delayed-visibility wait before a send, the pending-delayed gauge, and the send channel's capacity.
- Pipeline: one process; module Resume has what the offsets are after a crash. The reader may run ahead of the delivery loop, which the code does not let it do.
- Wire: HELLO, SUB, ACK, NACK, CREATE, PAUSE, RESUME and TRACEPARENT lines, error texts, and matching replies to requests.
- The order of the first OK and MSG on a connection, and the client's pending queue.
- JSON syntax of the offsets file: the model has its entries.
- Topic routing and round-robin, cluster redirects and backoff, metrics, tracing, TLS and authentication, the terminal interface and command-line tools.
