# Verified model of a learned LSM key-value store

A Dafny model of the storage engine in this repository (a LevelDB derivative with learned
indexes and separated value files), and proofs about it. `dafny verify dfyconfig.toml`
checks everything.

User keys are integers: only their order is used. A table is its sorted sequence of entries.
Tables, versions and entries are values; objects the source updates in place (iterator,
log reader and writer, skip list, Builder, regression, learned index, dependency map, block
graph) are classes; write path, crash recovery, group commit and value-file redirection are
state machines whose every interleaving of steps is covered.

| files | what they model |
|---|---|
| `InternalKeys`, `Versions`, `VersionGet` | internal keys, the reading rule, tables, levels, point lookup |
| `Overlap`, `Selection`, `Pick` | choosing compaction inputs |
| `Drop`, `DropView`, `Merge`, `Install`, `CompactionView`, `Compaction` | the drop loop, its outputs, the new version |
| `Builder`, `InstallEdit`, `FileNumbers` | version edits, their replay, file numbers |
| `Engine`, `EngineRuns`, `Snapshots`, `EngineManifest`, `TornRun` | reads over runs of writes, flushes, snapshots and compactions, and the manifest of a run |
| `Scan` | iterating over what the engine holds |
| `DbIter` | the iterator over live keys |
| `LogFormat`, `LogLayout`, `LogFile`, `LogReader`, `LogIo` | the write-ahead log format, writer and reader, and reading damaged logs |
| `Durability`, `DurabilityRuns`, `Promises`, `Recovery`, `Storage`, `Reopen` | what crashes can take, what clients may count on, opening again, and the version through it all |
| `GroupCommit`, `WritePath` | the writer queue, and the queue on top of the disk |
| `SkipList` | the memtable's list with lock-free readers |
| `Plr`, `PlrTrain`, `Learned` | the regression and lookups through it |
| `Forest`, `ValueFiles`, `Blocks` | redirection of value files and blocks |

## Where the code falls short

Each of these is a lemma with a concrete input or run, beside a proof of exactly when the
property does hold.

- A compaction can bring a deleted value back (`TornRun.DeletedValueComesBack`,
  `Compaction.DeletedValueReturns`): the boundary files of level + 1 are not added to its
  inputs, so a marker that is dropped can be torn from an older value in the next file.
  `CompactionView.CompactionExact` has the condition; the runs of `EngineRuns` and `Storage`
  are those without such a compaction.
- Modes 7 and 8 write no log, so acknowledged writes are lost unless flushed
  (`DurabilityRuns.Mode7LosesAcknowledgedWrite`, `DurabilityRuns.WithoutLog`).
- Changing logs does not sync the old one, so after a power loss a newer synced write can
  survive an older one (`DurabilityRuns.NewerOutlivesOlder`). No loss can do that if and only
  if the older log has nothing unsynced or the newer one nothing at all
  (`DurabilityRuns.PrefixAfterEveryLoss`).
- A log that holds only empty batches makes opening fail, because writing an empty level-0
  table is an error (`Recovery.EmptyBatchRun`, `Recovery.Recover`).
- The segments for the single key 0 are taken for the empty answer
  (`PlrTrain.Trainer.Train`).
- A window over three or more blocks misses keys in its middle blocks (`Learned.ReadMiddle`,
  `Learned.LevelRead`).
- In mode 10 value files compacted together with level-1 inputs are not redirected
  (`ValueFiles.LevelOneRun`, `ValueFiles.CompactExact`), and the snapshot written at opening
  leaves the dependency map out, so the opening after the next one has lost it
  (`ValueFiles.SecondReopenForgets`, `ValueFiles.ReopenExact`).
- Block redirection stops after ten moves (`Blocks.EleventhMoveIsNotFollowed`,
  `Blocks.DependencyGraph.LookupBlock`), and a saved graph of 2^32 or more mappings does
  not load back (`Blocks.LargeGraphIsLost`, `Blocks.SaveLoad`).

Two comments in the source claim more than the code does. The one at db/db_impl.cc:1595-1602
says that a dropped marker has no older data below; that is the first point above. The one at
impl/dependency.h:125 calls the limit of ten a guard against cycles; chains cannot be cyclic
when files are numbered upwards, and the limit cuts long ones.

## Model

| member | source | states |
|---|---|---|
| `InternalKeys.TagOrder` | db/dbformat.cc:18-42 | comparing the packed sequence-and-type tags is comparing sequence numbers, against a seek key and between entries of different sequence numbers |
| `Versions.FindFile` | db/version_set.cc:95-113 | the binary search returns the first file whose largest key is at or after the target, on every sorted level |
| `Versions.TableGetIsLook` | db/version_set.cc:346-359 | seeking in one table and inspecting the entry found gives the newest entry at or below the snapshot |
| `VersionGet.Get` | db/version_set.cc:429-634 | level-0 files newest first, then one file per deeper level, gives for every key and snapshot the highest-sequence entry over all files of the version |
| `VersionGet.NewestFirstSearch` | db/version_set.cc:429-634 | searching level-0 files in descending file number finds what the union of their entries holds, although the files overlap |
| `Versions.LevelHit` | db/version_set.cc:429-634 | on a sorted level one file decides, even when a user key is split across adjacent files |
| `Overlap.SomeFileOverlapsRange` | db/version_set.cc:129-164 | the binary-search test on disjoint sorted files agrees with the linear test on all files, with open bounds on either side |
| `Overlap.GetOverlappingInputs` | db/version_set.cc:804-844 | terminates despite its restarts; on level 0 the result is closed under user-key overlap and contained in every closed choice; on other levels it is exactly the overlapping files |
| `Overlap.LeastClosed` | db/version_set.cc:804-844 | a range that no longer widens selects the least closed set of files |
| `Selection.FindSmallestBoundaryFile` | db/version_set.cc:2038-2056 | the file found starts at the same user key as the largest chosen key, after it, and is the first such file; none is found only if there is none |
| `Selection.AddBoundaryInputs` | db/version_set.cc:2072-2095 | a run of files grows by files that each start at the user key the one before ends with, until its last user key is complete, and keeps what it had; an empty one stays empty |
| `Selection.SafeRunNewer` | db/version_set.cc:2072-2095 | no file left at the level holds an older version of a user key in the chosen files |
| `Selection.SetupOtherInputs` | db/version_set.cc:2097-2156 | whatever the seed, no file left at the level holds an older version of a chosen key, and the second list is exactly the files of the next level that reach into the range of the first; the wider list is taken if and only if it is longer, the whole stays below the limit and it meets the same files of the next level; the grandparents are exactly the files two levels down that overlap both lists, and the new compaction pointer is the largest key taken from the level |
| `Selection.SameCountSameFiles` | db/version_set.cc:2121-2130 | a longer list meets as many files of the next level only if it meets the same ones, so comparing counts is enough |
| `Pick.PickCompaction` | db/version_set.cc:1877-1929 | a size compaction starts from the next file after the pointer, a seek compaction from the worn one; the inputs are what SetupOtherInputs makes of it, and the level's pointer moves to the largest key taken |
| `Pick.PickInputs` | db/version_set.cc:1914-1924 | the seed is the file alone, on level 0 the least set of files with it that no other file overlaps |
| `Pick.NextFile` | db/version_set.cc:1891-1904 | the first file past the compaction pointer; the first file of the level when there is no pointer or no file past it |
| `Pick.CompactRange` | db/version_set.cc:2158-2189 | gives up exactly when nothing overlaps the range; otherwise the inputs are what SetupOtherInputs makes of the least closed set of files for the range on level 0, and on other levels of the overlapping files up to the one that reaches the size limit |
| `Drop.LevelCursor.IsBaseLevelForKey` | db/version_set.cc:2246-2265 | called with nondecreasing user keys, the cursor that only moves forward agrees with scanning every file two or more levels down |
| `Drop.DoCompactionWork` | db/db_impl.cc:1562-1655 | the output tables hold, in order, exactly the entries the drop rule keeps, no table is empty, and tables are closed as the two sizing tests ask |
| `Drop.CutWhereAsked` | db/db_impl.cc:1562-1655 | of two entries kept one after the other the second starts a table if and only if the first filled its table or a stop was asked for since, also at an entry that is dropped |
| `DropView.DropExact` | db/db_impl.cc:1572-1606 | dropping leaves every read at or after the smallest snapshot unchanged if and only if no dropped deletion marker has an older value of its key as the newest entry below it among the files left out |
| `DropView.NothingBelowMarker` | db/db_impl.cc:1589-1606 | once an entry at or below the smallest snapshot has come by, dropped or not, no older entry of its key is kept |
| `Install.InstallKeepsShape` | db/db_impl.cc:1430-1452 | installing outputs made from the inputs keeps levels sorted and disjoint and versions of a key descending through the levels |
| `Install.GoodInputsReady` | db/version_set.cc:2097-2156 | safe inputs have all that installing relies on |
| `CompactionView.CompactionExact` | db/db_impl.cc:1511-1640 | a whole compaction keeps the shape of the version, and keeps every read at or after the smallest snapshot if and only if no dropped marker is torn from an older value in the next file of level + 1 |
| `Compaction.CompactionRound` | db/db_impl.cc:1511-1640 | the same from chosen inputs through the drop loop to the installed version |
| `Compaction.MergedExists` | db/db_impl.cc:1531-1535 | every choice of inputs has a merged stream, so the results above are about every compaction |
| `Compaction.DeletedValueReturns` | db/version_set.cc:2101-2105 | a concrete version on which a compaction brings a deleted value back, because boundary files of level + 1 are not added |
| `TornRun.DeletedValueComesBack` | db/version_set.cc:2101-2105 | a run from an empty database, of writes, a snapshot, flushes and two compactions, after which such a compaction ends and a read at its smallest snapshot or later changes |
| `Engine.Get` | db/db_impl.cc:2231-2290 | memtable, then immutable memtable, then tables: the answer is the newest entry at or below the snapshot among everything ever written |
| `EngineRuns.RunsAreRight` | db/db_impl.cc:637-671 | over every run of writes, switches, flushes, snapshots, trivial moves and compactions overlapping with flushes, the invariant holds and the history read from is what was written |
| `EngineRuns.PathsAreRight` | db/db_impl.cc:637-671 | the same from any good state on, such as the one a reopened database starts in |
| `EngineRuns.HeldIsHistory` | db/db_impl.cc:2231-2290 | from the oldest live snapshot on, what memtables and tables hold reads like everything ever written |
| `EngineRuns.SnapshotIsStable` | db/db_impl.cc:2554-2562 | what memtables and tables hold changes over a run by flushes and compactions, and a snapshot that is no older than the oldest live one at both moments reads the same in it |
| `Snapshots.LiveUntilReleased` | db/db_impl.cc:2554-2562 | the snapshots live after any steps are those taken and not released since |
| `Snapshots.SnapshotsAreLive` | db/db_impl.cc:2554-2562 | in every run the snapshot list holds, for each live snapshot in order, the last sequence number of the moment it was taken, and nothing else |
| `Snapshots.OldestIsLive` | db/db_impl.cc:1525-1529 | the smallest snapshot of a compaction is that of the oldest live snapshot, or the last sequence number if there is none |
| `Snapshots.LiveSnapshotReads` | db/db_impl.cc:2554-2562 | whatever was flushed, compacted, taken or released since, a live snapshot reads from memtables and tables what they held, and what had been written, when it was taken |
| `Snapshots.CountersAreExact` | db/db_impl.cc:2696-2772 | over every run sequence numbers and file numbers are handed out one by one without a gap |
| `Snapshots.JobIsFromItsBeginning` | db/db_impl.cc:1511-1535 | a compaction works throughout with the version, the inputs and the smallest snapshot of the moment it began |
| `EngineRuns.FlushKeepsReady` | db/db_impl.cc:637-671 | a flush during a compaction does not invalidate its inputs |
| `EngineRuns.FinishView` | db/db_impl.cc:1430-1452 | finishing a compaction on the version of that moment keeps its shape and leaves every read at the job's smallest snapshot or later unchanged if and only if no marker is torn; live snapshots are among these reads |
| `EngineRuns.TrivialMoveKeeps` | db/version_set.cc:2209-2217 | moving a single file down a level keeps shape and contents |
| `FileNumbers.InstallIsLogged` | db/db_impl.cc:1430-1452 | on a version with unique file numbers the installed version has, level by level and in order, the files that the logged edit describes |
| `EngineManifest.StepIsLogged` | db/version_set.cc:1311-1315 | in every reachable state, what LogAndApply makes of the edit of a flush, a compaction or a trivial move is the version the engine goes on with |
| `EngineManifest.LogAndApplyStep` | db/version_set.cc:1311-1315 | the same computed by the Builder |
| `EngineManifest.NeverBack` | db/db_impl.cc:860-870 | no step adds a number to a level that had it before, trivial moves included |
| `EngineManifest.RunsAreLogged` | db/version_set.cc:1445-1513 | the edits of any run, of a new database or of one opened again, are a manifest the Builder accepts and describe the version the run ends with |
| `EngineManifest.RecoverVersion` | db/version_set.cc:1445-1513 | replaying such a manifest from the empty version through one Builder gives the version in use, file by file |
| `Reopen.SnapshotIsLogged` | db/version_set.cc:1623-1669 | the snapshot record of a version, replayed from the empty version, gives that version |
| `Reopen.OpenIsLogged` | db/db_impl.cc:3010-3032 | after a crash and a recovery the engine starts in a good state, and the new manifest, the snapshot and the edit of the recovery, describes its version |
| `Reopen.StartedOk` | db/db_impl.cc:3010-3032 | the reopened engine has the version, the last sequence number and the next file number of the recovery, and takes for its history what the live tables hold |
| `EngineManifest.FinishSaves` | db/db_impl.cc:1430-1452 | a compaction that ends in a reachable state has all that SavedTarget and SavedSource ask for |
| `DbIter.Iterator.FindNextUserEntry` | db/db_iter.cc:294-324 | from a position ahead of which everything is known, stops at the least live key of the range with its value, or at the end if there is none |
| `DbIter.Iterator.FindPrevUserEntry` | db/db_iter.cc:353-393 | moving backwards, stops one before the greatest live key of the range with its value saved, or at the beginning if there is none |
| `DbIter.Iterator.Seek` | db/db_iter.cc:395-407 | the least key at or after the target that has a visible, not deleted value |
| `DbIter.Iterator.SeekToFirst` | db/db_iter.cc:409-418 | the least live key |
| `DbIter.Iterator.SeekToLast` | db/db_iter.cc:420-425 | the greatest live key |
| `DbIter.Iterator.Next` | db/db_iter.cc:266-292 | the least live key after the current one, also when the direction changes over invisible entries and deletion markers |
| `DbIter.Iterator.Prev` | db/db_iter.cc:326-351 | the greatest live key before the current one, also when the direction changes |
| `DbIter.ScanAll` | db/db_iter.cc:266-324 | from the first key to the end, every live key comes once, in order, with its value |
| `Scan.HeldStream` | db/db_impl.cc:2171-2218 | in every reachable state what memtables and tables hold can be merged into one sorted stream, so the two results below are about all of them |
| `Scan.LiveIsHistory` | db/db_impl.cc:2171-2218 | in every reachable state a key is live for the iterator at a live snapshot exactly when its newest entry in the history is a value |
| `Scan.ScanAll` | db/db_impl.cc:2171-2218 | a scan at a live snapshot returns exactly the keys and values of the history at that snapshot, in order |
| `LogFormat.MaskRoundTrip` | util/crc32c.h:29-38 | unmasking a masked checksum gives it back for every 32-bit value |
| `LogFormat.MaskExamples` | util/crc32c.h:29-38 | the masked values of four checksums, worked out by hand from the rotation and the constant |
| `LogFormat.Fixed32RoundTrip` | util/coding.cc:9-18 | decoding an encoded 32-bit value gives it back |
| `LogFormat.HeaderBytes` | doc/log_format.md:8-13 | checksum and length stand in the header with their low byte first, then the type, then the data |
| `LogLayout.ReadLayout` | db/log_reader.cc:189-271 | wherever the file ends, the physical records lying wholly in it are parsed back, and nothing else |
| `LogFile.LayoutTight` | db/log_writer.cc:34-80 | every fragment of a record but its last fills its block |
| `LogFile.DocumentedExample` | doc/log_format.md:40-55 | records of 1000, 97270 and 8000 bytes are laid out as the documentation says |
| `LogFile.AssembleWhole` | db/log_reader.cc:56-174 | the fragments of a record are put together again, with nothing reported |
| `LogFile.TornTail` | db/log_reader.cc:56-174 | for every record list and every truncation of the written bytes, reading returns exactly the records wholly inside, and reports no corruption |
| `LogFile.RoundTrip` | db/log_reader.cc:56-174 | reading a whole written log returns the record list |
| `LogFile.SyncedSurvive` | db/log_reader.cc:56-174 | a record is among those returned exactly when the bytes up to its end survived |
| `LogReader.FoundIffStored` | db/log_reader.cc:189-271 | whatever the file holds, a fragment is returned at a position if and only if it is stored there in full, inside one block and with the right checksum |
| `LogReader.ReturnedIsIntact` | db/log_reader.cc:56-174 | a record that is returned is the data of fragments that follow each other; none is put together across a bad stretch |
| `LogReader.ReadsTheIntact` | db/log_reader.cc:56-174 | reading any stream of fragments and bad stretches to its end returns exactly the records whose fragments are all there one after the other, and that no fragment taken for the end of the file comes before |
| `LogReader.LossIsReported` | db/log_reader.cc:56-174 | when a whole log is read without a report, every fragment with data is part of a returned record or of one the log ends in |
| `LogIo.Writer.AddRecord` | db/log_writer.cc:34-80 | appends exactly the fragments and block trailers the layout calls for |
| `LogIo.Writer.EmitPhysicalRecord` | db/log_writer.cc:82-108 | appends header and payload and moves the block offset on |
| `LogIo.WriterGrows` | db/log_writer.cc:34-80 | adding records one at a time produces the log of the whole list |
| `LogIo.Reader.ReadPhysicalRecord` | db/log_reader.cc:189-271 | block-wise reading returns the physical records in order, each with its type byte, or end of file when none is left |
| `LogIo.Reader.ReadRecord` | db/log_reader.cc:56-174 | returns the next logical record and counts every corruption report, for any file contents; a record whose type byte is the one that stands for end of file ends the log without a report |
| `DurabilityRuns.RunsAreSafe` | db/db_impl.cc:637-671 | in every reachable state of writes, switches, flushes, manifest commits, compactions, file deletion, crashes and recoveries, the tables were given or the logs hold every acknowledged write and only submitted ones, no two of these entries share a key and sequence number, and what compactions dropped no later read can miss |
| `DurabilityRuns.ReadsAreRight` | db/db_impl.cc:1572-1606 | in every reachable open state, also after crashes, a read at or after the compactions' snapshots is as if nothing it was ever given had been dropped |
| `DurabilityRuns.FadedStep` | db/db_impl.cc:1430-1452 | every step keeps dropped entries invisible: flushes and recoveries only put newer entries on top, and compactions drop what no reader misses, which Storage.CompactAllowed proves of real ones |
| `DurabilityRuns.StepKeeps` | db/db_impl.cc:2696-2889 | each single step keeps that invariant |
| `DurabilityRuns.CrashRecovery` | db/db_impl.cc:375-427 | a crash at any moment followed by replay gives back every acknowledged write, after a power loss every synced or flushed one, nothing never submitted, and a last sequence number above all of it |
| `Promises.AcknowledgedWriteSurvives` | db/db_impl.cc:2696-2772 | with a log, what an acknowledged batch wrote is recoverable in every later state up to a power loss, whatever happens; with sync it and all before it in its memtable are in every later state |
| `Promises.FlushedSurvives` | db/db_impl.cc:637-671 | in every mode, what a committed flush put into a table is secured in every later state |
| `Promises.FlightIsAppended` | db/db_impl.cc:2696-2772 | the write that is acknowledged is the one appended last, since when none was acknowledged and nothing crashed |
| `Promises.NothingElseComesBack` | db/db_impl.cc:375-427 | every entry a recovery can give was appended by a step of the run |
| `Promises.SequenceIsExact` | db/db_impl.cc:2713-2752 | while the database is open the last sequence number grows by exactly the operations acknowledged |
| `Promises.NumbersAreExact` | db/db_impl.cc:2869-2889 | while the database is open the next file number grows by one for each new log and each flushed table |
| `Promises.HorizonIsExact` | db/db_impl.cc:1525-1529 | reads are right from the largest snapshot on that any compaction of the run has worked with |
| `Promises.DeletedLogStaysDeleted` | db/db_impl.cc:262-330 | the number of a deleted log never names a log again, whatever crashes follow |
| `Promises.DeletedTableIsGone` | db/db_impl.cc:262-330 | a deleted table was none of those in use, and deleting it changes nothing they hold |
| `Promises.FailedOpening` | db/db_impl.cc:375-427 | an opening that fails leaves the tables it wrote behind, unused, and takes nothing from what the next one can recover |
| `Promises.NoWriteAfterFailure` | db/db_impl.cc:2834-2842 | after a failed flush no write is accepted until the database is opened again |
| `DurabilityRuns.RecoverableIsView` | db/db_impl.cc:375-427 | at every moment the files give back exactly what readers see, plus the write under way |
| `DurabilityRuns.WithoutLog` | db/db_impl.cc:2723-2742 | in the modes that skip the log a crash loses nothing if and only if nothing is unflushed |
| `DurabilityRuns.Mode7LosesAcknowledgedWrite` | db/db_impl.cc:2723-2742 | a run in mode 7 that loses a write acknowledged with sync |
| `DurabilityRuns.PrefixAfterEveryLoss` | db/db_impl.cc:2869-2889 | before any power loss: whatever it may keep, the survivors are a prefix of the history, if and only if the log before the current one has nothing unsynced or the current one has nothing |
| `DurabilityRuns.NewerOutlivesOlder` | db/db_impl.cc:2869-2889 | a run in which a synced write survives and an older one does not |
| `Recovery.RecoverLogFile` | db/db_impl.cc:430-548 | the batches of the log go in order into tables, cut after each batch that fills the write buffer; each table is newer than the one before; the sequence number returned is the largest one used; records too short for a batch are passed over; it fails if and only if the last memtable was created and stayed empty, or such a record meets paranoid checks |
| `Recovery.Recover` | db/db_impl.cc:375-427 | replays the right logs in order, never reuses the number of a log or of the new manifest and passes over no other, numbers the tables by age, goes on from the largest sequence number that the manifest or a replayed batch has used, and succeeds if and only if no replayed log ends with an empty memtable |
| `Recovery.LastIsAnEntry` | db/db_impl.cc:494-498 | without empty batches that number is the sequence number of an entry of the logs, or the one the manifest records |
| `Recovery.NonEmptyBatchesRecover` | db/db_impl.cc:430-548 | logs without empty batches always recover |
| `Recovery.EmptyBatchBlocksOpen` | db/db_impl.cc:588-622 | a log holding one empty batch makes opening fail |
| `Recovery.EmptyBatchRun` | db/db_impl.cc:588-622 | a run that gets there: open a new database, write an empty batch, crash |
| `Storage.FinishDrops` | db/db_impl.cc:1430-1452 | a finished compaction of the engine drops nothing that a reader at its smallest snapshot or later could see if and only if no marker is torn |
| `Storage.MoveDrops` | db/db_impl.cc:860-870 | a trivial move changes no read at all |
| `Storage.CompactAllowed` | db/db_impl.cc:1430-1452 | a compaction chosen, run through the drop loop and installed, with no marker torn, is a compaction step of the crash machine |
| `Storage.CompactMirrors` | db/db_impl.cc:1430-1452 | taking the inputs' numbers off the manifest and adding the outputs' is installing the outputs in the version |
| `Storage.JoinedShape` | db/db_impl.cc:375-427 | adding a flushed table, or all tables of a recovery, to level 0 keeps the version well-formed, so newest-first search stays right |
| `Storage.OpenMirrors` | db/db_impl.cc:375-427 | opening after a crash puts the recovered tables over the version the manifest described |
| `Storage.CanCommit` | db/db_impl.cc:637-671 | whenever the crash machine can commit a flush, the version has a place for its table |
| `Storage.CanOpen` | db/db_impl.cc:375-427 | whatever tables a replay has written, the database opens on them |
| `Storage.RunsKeep` | db/db_impl.cc:637-671 | over every run of writes, flushes, real compactions, trivial moves, crashes and recoveries the live tables are those of a well-formed version, and every step is one of the crash machine |
| `Storage.Get` | db/db_impl.cc:2231-2290 | in every such state a lookup in memtable, immutable memtable and version answers from all that the database was ever given and kept |
| `GroupCommit.BuildBatchGroup` | db/db_impl.cc:2776-2822 | the group is the longest admissible prefix of the queue: up to 1 MB, behind a first batch of at most 128 KB up to 128 KB more, and no write with sync behind a first one without; its batch is the concatenation of theirs |
| `GroupCommit.CombinedSize` | db/db_impl.cc:2776-2822 | the size a group is measured by counts a header of twelve bytes for each of its batches |
| `GroupCommit.RunsCommit` | db/db_impl.cc:2696-2772 | over every interleaving of arrivals, log appends, syncs, memtable inserts and failures of any of the first two, groups are queue prefixes, every writer is retired once in order, numbers are handed out without gap or overlap, and log and memtable hold exactly what the commits say |
| `GroupCommit.AcknowledgedOnce` | db/db_impl.cc:2696-2772 | whatever failed, the memtable has every operation of every acknowledged writer exactly once, in queue order, under ascending numbers, and no other operation |
| `GroupCommit.AcknowledgedIsLogged` | db/db_impl.cc:2723-2752 | an acknowledged group is a record of the log under its numbers, and a synced one if any of its writers asked for that |
| `GroupCommit.NoFailures` | db/db_impl.cc:2696-2772 | when nothing fails, every retired writer is acknowledged and the numbers used are all of 1 to the last |
| `GroupCommit.RangesDisjoint` | db/db_impl.cc:2713-2752 | sequence ranges of different groups are disjoint and ascending |
| `WritePath.RunsAgree` | db/db_impl.cc:2696-2772 | over every run of the queue, with flushes, compactions and memtable switches beside it and no failing append or sync, the queue's log and memtable are those of the crash machine, and what it acknowledges that machine owes |
| `WritePath.NeverStuck` | db/db_impl.cc:2696-2772 | whatever the queue can do without failing, the disk can do its part of |
| `WritePath.AcknowledgedSurvive` | db/db_impl.cc:2696-2772 | a crash at any moment and a recovery bring back, for every acknowledged group, each of its operations under its number, with its value or as a deletion; after a power loss the groups whose leader synced |
| `Builder.ReplayIsOneByOne` | db/version_set.cc:1445-1513 | replaying any list of edits through one Builder leaves each level with the files that applying them one at a time leaves, when no number is added again |
| `Builder.Recover` | db/version_set.cc:1445-1513 | one Builder fed every edit saves, per level and in order, the files that the edits leave one by one |
| `Builder.LogAndApplyAll` | db/version_set.cc:1310-1315 | a new Builder for each edit does the same |
| `Builder.RecoverEqualsLogAndApply` | db/version_set.cc:1445-1513 | so both return the same lists of files |
| `Builder.VersionBuilder.Apply` | db/version_set.cc:1013-1086 | per level, deletions are added first and every added file is taken off the deleted numbers |
| `Builder.VersionBuilder.SaveTo` | db/version_set.cc:1089-1116 | the saved level is ordered by smallest key and number and holds exactly base and added files without the deleted ones |
| `Builder.Merge` | db/version_set.cc:1093-1116 | merging the ordered base with the ordered added files, skipping deleted numbers, gives that list |
| `InstallEdit.SavedTarget` | db/db_impl.cc:1430-1452 | the edit a compaction logs makes the Builder save, at level + 1, exactly the level of the installed version |
| `InstallEdit.SavedSource` | db/db_impl.cc:1430-1452 | the same at the level compacted from |
| `Plr.SetupCone` | mod/plr.cpp:84-91 | the first two points open a non-empty cone at their midpoint whose every slope is within gamma of both |
| `Plr.Meet` | mod/plr.cpp:24-33 | the intersection computed lies on both lines |
| `Plr.Narrow` | mod/plr.cpp:102-122 | accepting a point narrows the cone, keeps it non-empty and keeps both ends within gamma of all accepted points and the new one |
| `Plr.ConeFits` | mod/plr.cpp:93-100 | every slope in the cone fits every accepted point |
| `Plr.ConeIsExact` | mod/plr.cpp:84-122 | the slopes of the cone are exactly those within gamma of every accepted point |
| `Plr.JoinsExact` | mod/plr.cpp:103-107 | a point passes the test if and only if it lies strictly between two lines through the apex that fit all accepted points |
| `PlrTrain.Greedy.Process` | mod/plr.cpp:63-122 | the point joins the open segment if and only if it lies strictly between two lines that fit the segment's points; otherwise that segment is returned, and the point opens the next |
| `PlrTrain.Greedy.CurrentSegment` | mod/plr.cpp:93-100 | the line halves the range of slopes that fit, and is within gamma of every accepted point |
| `PlrTrain.Greedy.Finish` | mod/plr.cpp:124-142 | returns the last segment, also for one point or none |
| `PlrTrain.Trainer.Train` | mod/plr.cpp:148-175 | the segments cover every key exactly once, in order, each within gamma of the positions of its keys and as long as the rule allows, if and only if the keys are not the single key 0; training of a level gives way exactly at a tenth key with a compaction waiting |
| `PlrTrain.SameCover` | mod/plr.cpp:148-175 | there is only one such list of segments |
| `Learned.LearnedIndexData.Learn` | mod/learned_index.cpp:53-78 | succeeds unless training gave way or the only key is 0, and then has a trained model with its sentinel |
| `Learned.Predict` | mod/learned_index.cpp:22-43 | the binary search finds the last segment that starts at or before the target, for any model |
| `Learned.LearnedIndexData.GetPosition` | mod/learned_index.cpp:14-43 | for every trained key the window contains its position and is at most twice the error and two positions wide; for any other key that falls inside a segment it reaches one of the neighbours; keys outside the range give the size |
| `Learned.Search` | mod/learned_index.cpp:372-395 | a window on the level that contains the key's position becomes the right file and a window in it that contains the relative position and is no wider |
| `Learned.LevelRead` | db/table_cache.cc:289-365 | a present key in the window is found if and only if it is in the window's first or last block |
| `Learned.NarrowWindow` | db/table_cache.cc:289-304 | a window no longer than a block touches at most two blocks |
| `Learned.Lookup` | db/table_cache.cc:289-365 | with blocks of at least twice the error and two entries every trained key is found |
| `Learned.LookupInLevel` | db/version_set.cc:482-506 | through the model of a level: the file is the right one, and with blocks of at least twice the error and two entries every stored key is found in it |
| `Learned.ReadMiddle` | db/table_cache.cc:289-304 | a read over three blocks that misses the key in the middle one |
| `SkipList.List.FindGreaterOrEqual` | db/skiplist.h:260-281 | the first node at or after the key, and on every level the last node before it |
| `SkipList.List.FindLessThan` | db/skiplist.h:283-304 | the last node before the key, or the head |
| `SkipList.List.FindLast` | db/skiplist.h:306-323 | the last node, or the head |
| `SkipList.List.Contains` | db/skiplist.h:370-378 | true exactly for keys in the set |
| `SkipList.List.Insert` | db/skiplist.h:336-368 | adds the key, with a new node that joins exactly the levels below its height; every state of memory between two stores is sorted and nested on every level and holds the old set or the new one |
| `SkipList.List.LinkLevel` | db/skiplist.h:361-367 | the two stores at one level, with the states they leave |
| `SkipList.Publish` | db/skiplist.h:361-367 | storing the new node into its predecessor keeps the list good |
| `SkipList.ReadStepOk` | db/skiplist.h:260-281 | one turn of a search is right for the memory it reads |
| `SkipList.LockFreeSearch` | db/skiplist.h:260-281 | a search interleaved with any stores of Insert, started at any height, answers for the list as it was at one of the moments it read |
| `Forest.Dependency.FindParent` | impl/dependency.h:394-404 | terminates and returns the root; afterwards exactly the nodes on the way point straight at it, and no root has changed |
| `Forest.Dependency.SetParent` | impl/dependency.h:406-414 | hangs the tree of the child below the parent's root and changes no other root |
| `Forest.Link` | impl/dependency.h:406-414 | linking two roots keeps the forest free of cycles |
| `Forest.Rebuild` | db/version_edit.cc:116-121 | setting a forest's pairs again in any order gives every node the root it had, as decoding an edit and carrying a map over to a new version do |
| `Forest.SaveTo` | db/version_set.cc:1177-1184 | the pairs of the base version's map, then those of the edits, in any order: every node gets its root under the edits of its root in the base |
| `ValueFiles.StackedJoins` | db/version_set.cc:1177-1184 | for an edit that redirects files in use to a new one that is setting its parents in the base's map itself |
| `ValueFiles.CompactExact` | db/db_impl.cc:1443-1499 | a value compaction of mode 10 keeps the roots of created value files equal to the live ones if and only if it has no level-1 input and its last output was added, or it had no inputs |
| `ValueFiles.RunsRedirect` | db/db_impl.cc:1443-1499 | in mode 10, over every run of such steps the root of any value file ever created is live and every live file is its own root |
| `ValueFiles.ReopenExact` | db/version_set.cc:1623-1669 | after the next opening redirection is right if and only if no value file had been retired by the last one, since the snapshot manifest leaves the map out |
| `ValueFiles.SecondReopenForgets` | db/version_set.cc:1623-1669 | a run of a flush, a compaction and two openings, right after the first and wrong after the second |
| `ValueFiles.LevelOneRun` | db/db_impl.cc:1457-1494 | runs of eight or more flushes, a compaction of them to level 1, a flush and a compaction of that with the file on level 1, which is then lost |
| `ValueFiles.LevelOneNeedsEight` | db/db_impl.cc:1457-1494 | a value file is on level 1 only after a compaction of eight or more files of level 0 |
| `ValueFiles.LevelOneInputIsLost` | db/db_impl.cc:1484-1494 | after a compaction with a level-1 input the root of that file is not live |
| `ValueFiles.JoinRefines` | impl/dependency.h:406-414 | joining roots is what setting a parent does to the roots of the forest |
| `ValueFiles.RecordInputs` | db/version_set.cc:1083-1085 | setting the parent of each input in the map itself gives the roots this model works with |
| `ValueFiles.JoinEachIs` | db/version_set.cc:1083-1085 | setting the parent of each input in turn sends exactly their trees to the output |
| `Blocks.DependencyGraph.AddMapping` | impl/dependency.h:88-98 | each block of the range is mapped to the block as far into the new range, alone and with one reference, and nothing else changes |
| `Blocks.AddMappingKeepsRising` | impl/dependency.h:88-98 | mapping to files with larger numbers keeps chains free of cycles |
| `Blocks.AddAll` | impl/dependency.h:88-98 | over any list of moves into files with larger numbers chains stay free of cycles, and each block is where the last move of it has put it, or where it was |
| `Blocks.MovedBlock` | impl/dependency.h:88-98 | after these moves the chain of a moved block goes on from where its last move has put it, and that of any other starts as before |
| `Blocks.DependencyGraph.LookupBlock` | impl/dependency.h:117-164 | the result is the end of the chain if and only if the chain has at most ten links, and the count is the number of links followed |
| `Blocks.EleventhMoveIsNotFollowed` | impl/dependency.h:117-164 | a chain of eleven moves that a lookup does not follow to its end |
| `Blocks.DependencyGraph.SaveToFile` | impl/dependency.h:203-236 | writes version, count and entries in the order given |
| `Blocks.DependencyGraph.LoadFromFile` | impl/dependency.h:237-311 | loads what the bytes say; a missing file, another version or a short file gives the empty graph and an empty file in its place |
| `Blocks.LoadedExact` | impl/dependency.h:237-311 | for any bytes: a file that is short or of another version is the empty graph, any other maps exactly the locations it has entries for, by the last of them |
| `Blocks.EntryLayout` | impl/dependency.h:203-236 | the fields of an entry, in order and each with its low byte first |
| `Blocks.SaveLoad` | impl/dependency.h:203-311 | loading a saved graph gives it back if and only if its size fits the 32-bit count |
| `Blocks.LargeGraphIsLost` | impl/dependency.h:203-311 | a graph of 2^32 mappings that does not load back |
| `Blocks.CutFileIsEmpty` | impl/dependency.h:237-311 | a saved file cut off anywhere loads as the empty graph |

## Left out

- Table and block formats, filters, caches: a table is the sorted sequence of its entries.
- Environment and file errors other than truncation; locks and condition variables, which
  appear only as the points where steps may interleave.
- Floating-point rounding and the loss when 64-bit keys become doubles: reals are used.
- 64-bit overflow of sequence and file numbers.
- Where a compaction cuts its outputs: the two sizing tests, by overlap with the grandparents
  and by size, are functions of the position.
- The option to go on writing to the last log after a recovery (reuse_logs, off by default).
- Snapshots and overlapping flushes inside the crash machine: its compactions happen at once,
  with a smallest snapshot given; that the engine's are of this kind is
  `Storage.FinishCompacts`.
- The value log of modes 7 and 8, the value handling and iterator of modes 9, 10 and 13, and
  the merging of value files beyond which file replaces which.
- The uniform-size branch of the level search used in mode 4.
- The byte encoding of write batches and version edits, except the log frame around them and
  the order in which dependencies are set again.
- Reference counts and garbage collection in the block graph.
- Compaction scores, seek sampling, learning policy, statistics: they decide when, not what.
- Repair, dumping, file-name parsing, benchmarks, drivers and the C interface.
- LogIo.Reader.ReadPhysicalRecord: reading starts at the beginning of the file; initial
  offsets are not modelled.
- LogIo.Reader.ReadRecord: reading starts at the beginning of the file; initial offsets and
  resynchronisation are not modelled.
- Learned.Predict: a negative upper bound, undefined in the source for keys the model was not
  trained on, is taken as 0.
- GroupCommit.RunsCommit: the modes that skip the log and a batch that InsertInto rejects
  half-way are not modelled.
- Recovery.Recover: every record of a log is a batch there; shorter records are modelled in
  Recovery.RecoverLogFile.
- WritePath.RunsAgree: failing appends and syncs are covered by GroupCommit alone; the crash
  machine has no failing writes. The queue starts on a new database.
- Forest.SaveTo: for edits that redirect only roots of the base, as value compactions do and
  as all edits do when a manifest is replayed onto the empty version.
- ValueFiles.CompactExact: mode 13 also deletes its inputs and records no dependency; it is
  not modelled.
- SkipList.List.Insert: memory is sequentially consistent; each store is one step.
- Builder.VersionBuilder.Apply: compaction pointers and the value-file levels, which follow
  the same rules, are not modelled.
