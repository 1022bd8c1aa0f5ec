# LevelDB in Dafny

LevelDB is an ordered key-value store. It writes to a log and a memtable, flushes memtables
to tables, and merges tables down through seven levels; readers look at one sequence number.
This project models that machinery and proves that the layers, the caches and the crashes
cannot be seen: whatever the store has done, it answers like a plain map.

The claims, from the top:

- **The store is a map.** `Databases.DBImpl` has the operations of the database object. Each
  of them is proved to be one step of the state machine in `Engine`, and every run of that
  machine answers, at the last sequence number and at every held snapshot, like the map of all
  writes (`Engine.RunAnswersLikeMap`, `Databases.DBImpl.Get`). `PlainMaps` says what that map is
  without entries or sequence numbers: the empty map on which the operations written until then
  have been performed one after the other (`PlainMaps.ReadsSeeWritesUntil`,
  `Databases.DBImpl.Write`). The invariant: levels 1 and up
  are sorted and disjoint, and for one user key the search order goes from newest to oldest.
  A merge begins and finishes in two steps, with writes, flushes, snapshots between them.
- **Dropped entries are invisible**, although the merge decides by an older version
  (`Installs.InstallIsInvisible`), and what can be dropped is: a merge leaves one version of a
  key that every snapshot sees, and no deletion that hides nothing
  (`Invisibility.MergeKeepsExactly`, `Invisibility.OneOldVersionLeft`). The code installs a merge
  without looking at the files on its output level, and that is right if and only if the outputs fit between those that stayed there
  (`Engine.InstallKeepsInvIffFits`, for runs `Engine.SoundIffEveryOutcomeFits`). For picked merges
  they always do, so that runs without requested merges need no proviso
  (`Engine.CodeRunAnswersLikeMap`). For a merge requested by
  `CompactRange`, whose inputs may leave a gap, a memtable flushed into the gap breaks level 2:
  `Gaps.FlushIntoGapBreaksMerge` is a run in which this happens, and the flushed key is lost
  (`Gaps.FlushedKeyIsLost`).
- **Iterators are positions.** Cursors, block iterators, two-level iterators, merging
  iterators and the iterator over user keys are classes whose every call, direction switches
  included, moves like a position in a sorted sequence; the positions of an iterator over the
  database at a snapshot are the keys of the map (`Iterations.NewIterator`).
- **Crashes lose only what may be lost.** `Recovery` puts logs, a manifest and table files on a
  disk beside the engine. An open reads that disk and nothing else: the edits of the manifest,
  the tables they name, and the logs from the manifest's number on in the order of their numbers
  (`Disks`, `Replays`). What it finds after any crash of any run is proved to be the version from
  before and the batches that may be left, each whole or absent, and the reopened store reads as
  those batches say (`Recovery.RecoveryKeepsWrites`); some open always succeeds
  (`Recovery.CrashedDbOpens`); and removing obsolete files can never be noticed by an open
  (`Recovery.CollectKeepsNeeded`). `TornLogs` proves for the bytes of a log what is read when it
  is cut off anywhere, and `LogFiles` that such cuts are the crashes that recovery deals with.
  `LogReaders` proves for any bytes at all that a record read is made of fragments that stand in
  the file with their checksums (`LogReaders.FileSound`), and that a damaged one is reported.
  `Manifests` proves when replaying a manifest gives the version that was
  current, and that reusing a file number on a level breaks it; `Recovery.RunEntersOnce` proves
  that no run does that.
- **Group commit** keeps the order of arrival over all schedules of the writer threads
  (`WriteQueues.EveryScheduleGroupsInOrder`).
- **Tables, filters, codecs.** Blocks, tables, filters, varints, version edits and write batches
  are read back as they were written; a table lookup that probes one block misses nothing, with
  the filter block that was built with the table in between (`TableBuilders.GetBack`), for which
  the Bloom filter is good enough (`Blooms.BloomIsSound`).
- **In memory.** A skip list reader that runs among the stores of a writer misses no key that
  was there when it began (`SkipLists.ReaderMissesNothing`), and an insertion is exactly such a
  sequence of single stores (`SkipLists.SkipList.Insert`); the LRU cache keeps its references,
  charges and lists right and evicts the oldest, no more than needed.
- **CRC32C** (section 12.1 of RFC 3720) by four strided lanes is CRC32C byte by byte
  (`Crc32c.Extend`). The tables are taken by their defining equation. One changed byte shows, and
  so does any odd number of changed bits (`Crc32c.OddDifferencesShow`); `CrcValues` works out
  two of the checksums that RFC 3720 lists.

Code that changes its fields step by step is a class here, with the contract of each method
tied to a function or a position, and the laws are lemmas about those. `InternalKeys` holds the
vocabulary: entries, their order, what a read at a sequence number means, the map of a history.
The files follow the components: `Inputs`, `Picking`, `Sources`, `Merging`, `Invisibility` and `Installs`
make a compaction; `Builders`, `Manifests`, `ManifestLogs` and `VersionEdits` the manifest; `Logs`,
`LogReaders`, `TornLogs` and `LogFiles` the log; `Batches`, `Replays`, `Disks` and `Recovery`
recovery; `Blocks`, `BlockIterators`, `TableBuilders`, `Tables`, `FilterBlocks` and `Blooms` a table.

User keys are ranks in the order of the comparator, as real numbers, so that every comparator
is covered; `Bytewise.RankEmbeds` embeds byte strings, and `InternalKeyFormats` ties encoded
internal keys to the ranks. `dafny verify dfyconfig.toml` checks everything.

Where code and comments disagree, the code is followed: the comment in db/write_batch.cc:20-31
gives values the type 0 and deletions the type 1, db/dbformat.h has them the other way around.

## Model

| member | source | states |
|---|---|---|
| Engine.RunAnswersLikeMap | db/db_impl.cc:1155-1200 | for every run of what the code does (writes, memtable switches, flushes, trivial moves, merges that begin and install with other steps between, snapshots taken and released) that stays sound, which is when every installation fits: at the last sequence number and at every held snapshot the store answers like the plain map of all writes up to there |
| Engine.CodeRunAnswersLikeMap | db/db_impl.cc:721-1054 | the same for every run of what the code does, which installs without looking whether outputs fit, when the merges that begin leave no gap between their inputs |
| Engine.InstallKeepsInvIffFits | db/db_impl.cc:897-913 | an installation as the code does it keeps the invariant if and only if every file that stayed on the output level lies beside every output |
| Engine.CodeStepKeepsInvIffFits | db/db_impl.cc:721-913 | every step of the code keeps the invariant (levels 1 and up sorted and disjoint; for one user key the memtables, then the levels, from newest to oldest; reads from the oldest promised sequence number on those of the history), except an installation of outputs that do not fit, which breaks it |
| Engine.SoundIffEveryOutcomeFits | db/db_impl.cc:721-1054 | the invariant holds in every state of a run if and only if every installation in it fits |
| Engine.WriteBatchKeepsInv | db/db_impl.cc:1273-1321 | applying a batch takes consecutive sequence numbers and keeps the invariant |
| Engine.FlushKeepsInv | db/db_impl.cc:561-592 | installing a flushed memtable keeps it, also in the middle of a merge |
| Engine.MoveKeepsInv | db/db_impl.cc:747-763 | moving one file down a level keeps it |
| Engine.InstallKeepsInv | db/db_impl.cc:897-913 | installing the outputs of a merge that began in an older version keeps it, provided the outputs fit |
| Engine.ConnectedJobFits | db/db_impl.cc:953-963 | when the inputs of a merge leave no gap, the outputs fit whatever was flushed while it ran |
| Engine.LaterWritesInvisible | db/db_impl.cc:1176-1192 | a reader that works outside the mutex does not see writes that reach the memtable after it took its sequence number |
| Gaps.FlushIntoGapBreaksMerge | db/db_impl.cc:953-963 | a run of the engine from the empty database, every table on the level that the code picks: a requested merge of two level-1 files with a gap begins, a memtable is flushed into the gap to level 2, the code may install the one output; then level 2 has two overlapping files, nothing is stored elsewhere, and the map of all writes has the flushed key |
| Gaps.FlushedKeyIsLost | db/version_set.cc:324-400 | the lookup over all levels of that version does not find the flushed key |
| Gaps.RequestAll | db/version_set.cc:1542-1573 | a request for all keys of level 1 picks exactly the inputs of that merge |
| Databases.DBImpl.Write | db/db_impl.cc:1273-1321 | afterwards the map of all writes is the map from before on which the operations have been performed in order (a put sets the key, a delete removes it), and the map at every earlier sequence number is as it was; the new state is the step of the engine and the object stays valid |
| Databases.ReadAfterWriting | db/write_batch.cc:132-145 | a read after a write gives the value of the last put on the key in the batch, nothing when the last operation on it is a delete, and what a read gave before when the batch does not have the key |
| PlainMaps.WriteBatchFollows | db/db_impl.cc:1273-1321 | writing a batch performs its operations on the plain map of the store and changes no map of an earlier sequence number |
| PlainMaps.ReadsSeeWritesUntil | db/db_impl.cc:1155-1200 | in every run whose installations fit: a read at the end of the run, or under a snapshot taken at some moment of it, is a lookup in the empty map on which the operations written until then have been performed one after the other |
| PlainMaps.LastOperationDecides | db/write_batch.cc:132-145 | performing operations: the last one on a key decides what the key has |
| PlainMaps.OtherKeysStay | db/write_batch.cc:132-145 | and keys without an operation keep what they had |
| Databases.DBImpl.MakeRoomForWrite | db/db_impl.cc:1407-1496 | exactly which of delaying, going on, waiting and switching memtables happens, and that a switch is a step of the engine |
| Databases.DBImpl.Get | db/db_impl.cc:1155-1200 | memtable, immutable memtable, tables, stopping at the first hit: the answer is the lookup in the map of all writes at the snapshot, or at the last sequence number |
| Databases.DBImpl.GetSnapshot | db/db_impl.cc:1221-1224 | holds the last sequence number |
| Databases.DBImpl.ReleaseSnapshot | db/db_impl.cc:1226-1229 | lets one held sequence number go |
| Databases.DBImpl.CompactMemTable | db/db_impl.cc:511-592 | numbers, sizes, places and installs the table of the immutable memtable: a flush step that the engine allows; the level is at most 2, all levels down to it are clear of the range of the table and the grandparents light, and below 2 either the next level or the grandparents of the next one forbid to go deeper, or level 0 itself overlaps |
| Databases.DBImpl.StartCompaction | db/db_impl.cc:721-773 | a picked compaction moves its one file exactly when there is no input of the next level and the grandparents have no more bytes than the limit, and begins a merge without gaps otherwise: a step that the engine allows; the inputs are those that the pointer or the seek calls for, the grandparents are the files two levels down that overlap them, and the pointer of the level becomes the largest key of the inputs |
| Databases.DBImpl.StartManualCompaction | db/db_impl.cc:731-746 | a requested compaction is done exactly when no file overlaps the range, and else begins a merge, with its grandparents, and moves the pointer of the level to the largest key of the inputs |
| Databases.DBImpl.FinishCompaction | db/db_impl.cc:917-1054 | runs the inputs through a merging iterator, merges, cuts, numbers and installs, whatever came to the output level meanwhile: the outputs hold exactly the input entries without a newer version of their key that every snapshot sees, except deletions that every snapshot sees with nothing deeper of their key; they are numbered and sized, and cut exactly where they are full or too many grandparent bytes were passed; the object stays valid exactly when the outputs fit there, and they do when the inputs leave no gap or the files on that level still lie beside the inputs |
| Databases.MemTableGet | db/memtable.cc:108-157 | the newest version of the key up to the sequence number, if the memtable has one |
| Databases.LogAndApply | db/version_set.cc:810-830 | the current version with one edit applied |
| Iterations.NewInternalIterator | db/db_impl.cc:1117-1142 | the memtables, the files of level 0 and one run for each deeper level have no entry in common, and the merging iterator over them goes over exactly what is stored |
| Sources.AddIterators | db/version_set.cc:229-246 | the same for the files of one version |
| Sources.MakeInputIterator | db/version_set.cc:1301-1335 | the inputs of a merge have no entry in common and go through one merging iterator, the files of level 0 one by one and those of a deeper level as one run |
| Picking.BoundariesIterable | db/version_set.cc:1453-1476 | boundary files keep the inputs without repetition, and on deeper levels in key order, as one run needs |
| Iterations.NewIterator | db/db_impl.cc:1202-1212 | a fresh iterator whose positions are the keys of the map of all writes up to the snapshot, in order, with their values |
| Iterations.IterationIsMap | db/db_iter.cc:177-276 | what is visible at a held snapshot among the stored entries is that map |
| InternalKeys.ReadIsMapLookup | db/dbformat.cc:47-63 | reading the newest visible version is looking up the map that the writes, performed in order, produce |
| Snapshots.SnapshotList.New | db/snapshot.h:57-70 | appends to the circular list, which stays a ring in both directions, oldest first |
| Snapshots.SnapshotList.Delete | db/snapshot.h:79-86 | unlinks exactly one snapshot |
| Snapshots.SnapshotList.Oldest | db/snapshot.h:47-50 | the least sequence number held |
| Versions.FindFile | db/version_set.cc:87-105 | the first file whose largest key is at or after the key |
| Versions.SearchLevel0 | db/version_set.cc:285-304 | files whose range has the key, newest first: the newest visible version on level 0 |
| Versions.SearchLevel | db/version_set.cc:306-321 | the answer of the one binary-searched file, which is that of the whole level when its files are sorted and disjoint |
| Versions.Get | db/version_set.cc:324-400 | in a valid version the search that stops at the first hit delivers the newest visible version over all levels, or nothing when there is none; in any searchable one a hit comes from a file it looks into |
| Inputs.GetOverlappingInputs | db/version_set.cc:525-565 | terminates; on level 0 the least set around the range that is closed under overlap; on other levels exactly the overlapping files |
| Inputs.FindLargestKey | db/version_set.cc:1401-1417 | the largest key of the files |
| Inputs.FindSmallestBoundaryFile | db/version_set.cc:1419-1440 | the first file that starts just past a key with the same user key |
| Inputs.AddBoundaryInputs | db/version_set.cc:1453-1476 | terminates with no unchosen file that starts just past the largest chosen key with its user key |
| Picking.GetRange | db/version_set.cc:1248-1270 | the least and the largest key of the files |
| Picking.SomeFileOverlapsRange | db/version_set.cc:121-158 | by binary search or by a scan: whether some file overlaps the range |
| Picking.PickLevelForMemTableOutput | db/version_set.cc:496-521 | nothing overlaps on the levels that the table passes, the grandparents stay light, the level is at most 2, and below 2 the reason why it is not deeper |
| Picking.NextToCompact | db/version_set.cc:1352-1366 | the first file past the compaction pointer, or the first one |
| Picking.ExpandInputs | db/version_set.cc:1494-1525 | the inputs grow to the upper files that overlap the whole range exactly when those are more, stay below the byte limit together with the lower ones, and need no more lower files; safe and gap-free inputs stay so |
| Picking.SetupOtherInputs | db/version_set.cc:1479-1540 | the inputs of both levels are safe to merge, contain the picked files, leave no gap if those left none, and come with their grandparents |
| Picking.PickCompaction | db/version_set.cc:1337-1390 | a safe and gap-free choice around the file that the pointer or the seek names, with its grandparents and the largest key of its inputs |
| Picking.CompactRange | db/version_set.cc:1542-1573 | nothing exactly when no file overlaps, else a safe choice with its grandparents and its largest key; on level 0 it has every overlapping file, on deeper levels the overlapping files up to the first one at which the byte limit is reached |
| Picking.MovesAloneIff | db/version_set.cc:1593-1601 | the test of the code for a move says that one file goes down past nothing and overlaps few enough bytes two levels down |
| Picking.LowerIsLegal | db/version_set.cc:1485-1492 | the overlapping files of the next level with their boundary files: a file left behind lies outside the range of the inputs |
| Merging.Progress.IsBaseLevelForKey | db/version_set.cc:1611-1631 | for nondecreasing keys the moving pointers answer like a full scan of the deeper levels |
| Merging.Progress.ShouldStopBefore | db/version_set.cc:1633-1655 | the pointer stops at the first grandparent that does not end before the key; the bytes of those passed, and whether they exceed the limit |
| Merging.DropEntry | db/db_impl.cc:990-1018 | an entry is dropped exactly when a newer version of its key is visible to every snapshot, or when it is a deletion that every snapshot sees and nothing below has the key |
| Merging.DoCompactionWork | db/db_impl.cc:917-1054 | the output files together hold exactly the entries that are not dropped, in order, numbered one after the other and sized; a file without its last entry is below the size limit, it ends only when it is full or where the grandparents passed since the last cut exceed the limit, and no file spans such a cut |
| Merging.CutBefore | db/version_set.cc:1633-1655 | the moving pointer and byte count call for a cut exactly where the grandparents that end between the last cut and the key have more bytes than the limit |
| Invisibility.DroppedEntries | db/db_impl.cc:990-1018 | every dropped entry is hidden by a kept newer one, or is a deletion with nothing older kept |
| Invisibility.DropIsInvisible | db/db_impl.cc:990-1018 | leaving such entries out changes no read at the smallest snapshot or later |
| Invisibility.MergeKeepsExactly | db/db_impl.cc:990-1018 | of a sorted input the loop leaves exactly the entries without a newer version of their key at or below the snapshot, except deletions at or below it whose key lies in no file range from two levels down on |
| Invisibility.OneOldVersionLeft | db/db_impl.cc:990-1018 | so at most one version of a key at or below the snapshot is left, and it is a put when nothing deeper can have the key |
| Invisibility.OnlyNewestPutsLeft | db/db_impl.cc:990-1018 | and when everything is at or below the snapshot and nothing is deeper, exactly the newest puts are left |
| Invisibility.CutFiles | db/db_impl.cc:964-976 | cutting the output anywhere gives valid, sorted and disjoint files |
| Installs.FlushKeepsVersion | db/version_set.cc:496-521 | a table placed where the picker may place it leaves a valid version |
| Installs.MoveKeepsVersion | db/version_set.cc:1593-1601 | a legal move leaves a valid version with the same entries |
| Installs.InstallCompactionResults | db/db_impl.cc:897-913 | the edit removes all inputs and adds all outputs to the lower level |
| Installs.InstallIsValidIffFits | db/db_impl.cc:897-913 | installing a merge leaves a valid version if and only if every file that stayed on the output level lies beside every output |
| Installs.InstallIsInvisible | db/db_impl.cc:897-1054 | no read at the snapshot of the merge or later changes, though the merge decided by an older version |
| Installs.MergedIsCompacted | db/db_impl.cc:917-1054 | the same of the output files of a merge: they hold what a merge should leave of the input files |
| Installs.FlushMissesConnectedInputs | db/db_impl.cc:953-963 | a memtable flushed to the output level lies outside the range of gap-free inputs |
| Builders.Builder.Apply | db/version_set.cc:656-696 | accumulates one edit |
| Builders.Builder.SaveTo | db/version_set.cc:699-742 | the stepwise merge of base and added files with upper-bound searches is the merge by smallest key without the deleted files |
| Builders.EditedMembers | db/version_set.cc:656-757 | after one edit a level has exactly the added files and the files not deleted, sorted |
| Manifests.ReplayIsOneByOne | db/version_set.cc:909-1040 | accumulating all edits and saving once is applying them one version at a time, when a file number enters a level at most once |
| Manifests.ReusedNumberRevivesFile | db/version_set.cc:744-756 | without that proviso it is not |
| Manifests.WriteSnapshot | db/version_set.cc:1127-1157 | one edit with all files |
| Manifests.SnapshotRebuilds | db/version_set.cc:1127-1157 | replaying that edit alone gives the version back |
| Manifests.RecoverRebuildsVersion | db/version_set.cc:909-1040 | a manifest that starts with a snapshot and goes on with edits rebuilds the version those edits led to |
| VersionEdits.EncodeTo | db/version_edit.cc:42-85 | the encoding of an edit decodes to the edit |
| VersionEdits.DecodeFrom | db/version_edit.cc:106-204 | the loop over tags is the recursive decoder, errors included |
| VersionEdits.EditRoundTrip | db/version_edit.cc:42-204 | decoding the encoded fields absorbs exactly those fields |
| ManifestLogs.EditedBare | db/version_set.cc:656-757 | applying an edit to files whose contents are not known commutes with forgetting contents |
| ManifestLogs.LogNewTables | db/version_set.cc:810-880 | logging an edit that adds never-used numbers keeps: the logged edits lead to the version, and a number enters a level at most once |
| ManifestLogs.LogMove | db/db_impl.cc:747-763 | so does logging a move, though the number is an old one |
| ManifestLogs.ManifestRecovers | db/version_set.cc:909-1040 | replaying the logged edits and looking the tables up by number gives the version that was current |
| Disks.ReadLogs | db/db_impl.cc:323-367 | picks the logs from the manifest's number on out of the directory, sorts them by number and reads one after the other |
| Disks.SparedFiles | db/db_impl.cc:292-383 | logs before the manifest's number, logs without records and tables that the manifest does not name have no influence on an open |
| Disks.InterruptedOpen | db/db_impl.cc:385-503 | an open that is cut short before its manifest became current leaves the next open what it found itself |
| Replays.ReplayOk | db/db_impl.cc:385-503 | replaying log records chunk by chunk, flushing full memtables to level 0, keeps the engine invariant and reads what the records say |
| Replays.AddsTogether | db/db_impl.cc:292-383 | the one edit with all tables that a replay wrote gives the version that adding them one by one gives |
| Recovery.DbStepKeepsIffFits | db/db_impl.cc:225-503 | every step of the code (appending to the log, switching logs, building tables, flushing, moving, installing, removing obsolete files, crashing and opening) keeps, an installation exactly when its outputs fit: what is not in tables is in the logs that the manifest names, the manifest's edits lead to the current version, and every table it names is there |
| Recovery.CodeRunsAreRuns | db/db_impl.cc:721-1054 | a run of what the code does, which installs without looking whether outputs fit, is one of these runs when the merges that begin leave no gap between their inputs |
| Recovery.RunEntersOnce | db/version_set.cc:744-756 | in every run the edits in the manifest let a file number enter a level at most once, so that replaying them is right |
| Recovery.FoundIsBase | db/db_impl.cc:292-322 | what an open reads from the manifest and the tables on disk after a crash is the version from before, with its numbers |
| Recovery.RecordsSurvive | db/db_impl.cc:323-367 | the records that an open reads from the logs are those that the two logs in use kept, older first, and the record in flight |
| Recovery.RecoveryKeepsWrites | db/db_impl.cc:292-503 | from every state that a run reaches, after any crash, an open that reads nothing but the disk finds: the batches from before without a suffix of each of the two logs, each whole; every batch written with sync; after a crash in which the log files keep all their records, every batch; and reads are lookups in the empty map on which the operations of these batches have been performed one after the other |
| Batches.BatchesOnMap | db/write_batch.cc:132-153 | the history that batches leave is the empty map on which their operations have been performed, put by put and delete by delete |
| Recovery.CrashedDbOpens | db/db_impl.cc:292-503 | after every crash of every run some open succeeds |
| Recovery.ProcessCrashKeepsAll | db/db_impl.cc:385-503 | when the log files keep all their records, what the open reads is every batch |
| Recovery.ProcessCrash | db/db_impl.cc:385-503 | such a crash can happen in every state |
| Recovery.SyncedSurvive | db/db_impl.cc:1293-1311 | a batch acknowledged with sync is among what the open reads |
| Recovery.CollectKeepsNeeded | db/db_impl.cc:225-290 | removing obsolete files at any time changes no open after any later crash: the same opens succeed, with the same version, records, numbers and manifest |
| Recovery.CollectAddsNoCrash | db/db_impl.cc:225-290 | and every crash of the smaller directory leaves what some crash of the full one leaves |
| Recovery.NothingMoreIsObsolete | db/db_impl.cc:225-290 | what removing obsolete files leaves is needed: without a table that stays no open succeeds, unless it is being built or its version is in use; without a log that stays and has records some are lost |
| Logs.Writer.AddRecord | db/log_writer.cc:34-87 | the file is then the log of one more record |
| Logs.Writer.Resume | db/log_writer.cc:27-30 | a writer opened at the end of a log goes on as if it had never been closed |
| Logs.ThreeRecords | doc/log_format.md:38-53 | the example of the description of the format: records of 1000, 97270 and 8000 bytes lie in four blocks as it says, with a trailer of six bytes in the third |
| LogReaders.Reader.ReadRecord | db/log_reader.cc:61-183 | whatever the file holds, a record that is returned is the data of fragments that stand in the file with their checksums, one right after the other between where the call began and where it ends, a full one or a first, middle ones and a last; and the stateful reader with its buffer and scratch is the recursive assembler, reports included, also for stored type bytes that are the reader's own codes for end of file and bad record |
| LogReaders.Reader.ReadPhysicalRecord | db/log_reader.cc:225-321 | a fragment that is returned stands in its block with its checksum; a whole fragment with another checksum is a bad record, the rest of its block is dropped, and its length is reported |
| LogReaders.PieceIff | db/log_reader.cc:258-319 | a fragment is taken from the buffer exactly when the buffer begins with one that the format has |
| LogReaders.DamagedIsDropped | db/log_reader.cc:289-303 | a whole fragment with another checksum takes the rest of the buffer with it |
| LogReaders.NothingAfterDamage | db/log_test.cc:412-418 | a file of at most one block that begins with a damaged fragment gives no record, and all of it is reported |
| LogReaders.FileSound | db/log_reader.cc:61-183 | all records read from any file stand in it one behind the other |
| LogReaders.NothingIsLost | db/log_reader.cc:61-183 | the bytes that a call reports and returns are all the data of good fragments and rests of blocks it came by; without a record at the end of the file, no more than those |
| TornLogs.LogRoundTrip | db/log_reader.cc:61-183 | reading a log gives exactly the records written, and nothing is reported |
| TornLogs.TornLogReadsCompleteRecords | db/log_reader.cc:225-321 | a log cut off at any byte gives exactly the records wholly in what is left, and nothing is reported |
| TornLogs.CompleteIff | db/log_writer.cc:34-87 | which records those are |
| LogFiles.RecordRoundTrip | db/db_impl.cc:430-460 | the record of a batch gives its sequence number and operations back |
| LogFiles.CutKeepsPrefix | db/db_impl.cc:385-503 | a log of batches that is cut off anywhere behind its synced part reads back as the first few batches, the synced ones among them |
| LogFiles.EveryPrefixIsCut | db/db_impl.cc:385-503 | and every such number of batches is what some cut leaves |
| LogFiles.CutsAreCrashes | db/db_impl.cc:385-503 | when a crash cuts all logs off anywhere behind their synced parts, also inside the record being written, what can be read is what a crash of whole batches leaves, the kind of crash that recovery is proved for |
| WriteQueues.BuildBatchGroup | db/db_impl.cc:1346-1392 | the group is the longest prefix whose writers may join: no sync rides with a leader without, the size limit holds unless the leader is alone with a batch, and the writer after the group breaks one of the two |
| WriteQueues.SizeLimit | db/db_impl.cc:1356-1362 | a group respects the limit unless the first batch is the only one |
| WriteQueues.EveryScheduleGroupsInOrder | db/db_impl.cc:1241-1340 | over all schedules: one leader at a time, at the front of the queue; every writer that came is in exactly one group or queued, in order of arrival; groups get consecutive ranges of sequence numbers; members return what their leader returns |
| WriteBatches.WriteBatch.Put | db/write_batch.cc:114-119 | one operation more |
| WriteBatches.WriteBatch.Append | db/write_batch.cc:160-164 | the operations of both batches in order, under the sequence number of the first |
| WriteBatches.Iterate | db/write_batch.cc:58-96 | every well-formed record up to the first bad one; good exactly when all parse and the count agrees |
| WriteBatches.BatchRoundTrip | db/write_batch.cc:58-96 | what is read back is what was put in; the status is good exactly when the 32-bit count did not wrap around |
| WriteBatches.InsertInto | db/write_batch.cc:148-153 | the memtable gets the operations under consecutive sequence numbers |
| Cursors.Cursor.Seek | table/block.cc:180-246 | binary search for the first entry at or after a key |
| MergingIterators.MergingIterator.Next | table/merger.cc:58-82 | from either direction: one step forward in the sorted union |
| MergingIterators.MergingIterator.Prev | table/merger.cc:84-111 | from either direction: one step back in the sorted union |
| MergingIterators.MergingIterator.Seek | table/merger.cc:50-56 | the first entry of the union at or after the target |
| MergingIterators.MergingIterator.FindSmallest | table/merger.cc:151-164 | the child that holds the next entry of the union |
| MergingIterators.MergingIterator.FindLargest | table/merger.cc:166-179 | the child that holds the entry before |
| MergingIterators.ReadAll | table/merger.cc:34-82 | reading to the end gives the sorted union |
| DbIterators.DBIter.Next | db/db_iter.cc:141-175 | one position on in the sorted map visible at the sequence number, also after a switch of direction |
| DbIterators.DBIter.Prev | db/db_iter.cc:209-234 | one position back, also after a switch of direction |
| DbIterators.DBIter.Seek | db/db_iter.cc:278-290 | the first visible user key at or after the target |
| DbIterators.DBIter.SeekToFirst | db/db_iter.cc:292-301 | the first visible user key |
| DbIterators.DBIter.SeekToLast | db/db_iter.cc:303-308 | the last visible user key |
| DbIterators.DBIter.FindNextUserEntry | db/db_iter.cc:177-207 | skips newer entries, overwritten versions and deletions, and nothing else |
| DbIterators.DBIter.FindPrevUserEntry | db/db_iter.cc:236-276 | saves the visible version of the user key before |
| DbIterators.ViewIsReads | db/db_iter.cc:177-207 | a user key is in the visible map exactly when a read finds a value, and with that value |
| DbIterators.LaterEntriesKeepView | db/db_iter.cc:177-276 | entries that arrive with later sequence numbers change no position of an iterator: as many, in the same order, with the same entries |
| TwoLevelIterators.TwoLevelIterator.Seek | table/two_level_iterator.cc:82-87 | the first entry at or after the target in the concatenation of all blocks |
| TwoLevelIterators.TwoLevelIterator.Next | table/two_level_iterator.cc:103-107 | one entry on, over empty blocks |
| TwoLevelIterators.TwoLevelIterator.Prev | table/two_level_iterator.cc:109-114 | one entry back, over empty blocks |
| TwoLevelIterators.TwoLevelIterator.SeekToLast | table/two_level_iterator.cc:96-101 | the last entry |
| Blocks.BlockBuilder.Add | table/block_builder.cc:72-112 | the buffer then encodes one entry more, which shares the longest common prefix with the key before it, or nothing at a restart point |
| Blocks.BlockBuilder.Finish | table/block_builder.cc:61-70 | the block encodes exactly the entries added, with a restart point every interval |
| Blocks.HeaderRoundTrip | table/block.cc:65-85 | the header of an encoded entry decodes before any suffix, by the short way and the long one |
| BlockIterators.ReadBlock | table/block.cc:248-298 | iterating a finished block gives the entries that were added |
| BlockIterators.BlockIter.Next | table/block.cc:152-155 | the next entry of the block |
| BlockIterators.BlockIter.Prev | table/block.cc:157-178 | the entry before; undoes Next |
| BlockIterators.BlockIter.Seek | table/block.cc:180-246 | from any position, with the shortcut that starts at the current entry: the first key at or after the target, or invalid |
| BlockIterators.BlockIter.SeekToLast | table/block.cc:253-258 | the last entry |
| TableBuilders.TableBuilder.Add | table/table_builder.cc:100-140 | one entry more; the index entry of a finished block is made with the next key, by the shortest separator; the block is written exactly when it has reached the block size; the filter gets the key under the offset of its block |
| TableBuilders.TableBuilder.Flush | table/table_builder.cc:142-163 | the block goes to the file under its offset and size, a handle that no other block has, and the offset moves past it and its trailer |
| TableBuilders.TableBuilder.Finish | table/table_builder.cc:240-297 | the index separates the blocks sharply, the blocks behind it hold exactly what was added, and the filter block is one of all their keys, each under the offset in the handle of its block |
| TableBuilders.FilterCovers | table/table.cc:233-266 | with a policy that matches the keys a filter was made from, the filters of the built table match every key of every block |
| TableBuilders.GetBack | table/table.cc:83-131 | a lookup in the built table through its own filter block delivers the newest visible version of what was added |
| Tables.InternalGet | table/table.cc:233-266 | the handle is decoded, the filter asked, and the single probe delivers the newest visible version of the user key if the table has one, and else no entry of that user key |
| Tables.OnlyProbedBlock | table/table.cc:233-266 | a visible version elsewhere makes the probed block hold a key of the same user key |
| Tables.ApproximateOffsetOf | table/table.cc:268-297 | blocks below the offset hold only smaller keys, blocks above it none |
| Bytewise.FindShortestSeparator | util/comparator.cc:31-52 | unchanged exactly when no byte fits between the two where they first differ; otherwise strictly between, and of all strings strictly between the least of the shortest |
| Bytewise.FindShortSuccessor | util/comparator.cc:54-66 | unchanged exactly for a run of 0xff, and otherwise later; of all later strings none is shorter, and it is the least of the shortest |
| Bytewise.RankEmbeds | util/comparator.cc:27-29 | byte strings compare as their ranks do |
| InternalKeyFormats.ParseEncoded | db/dbformat.h:174-184 | parsing an encoded internal key gives it back |
| InternalKeyFormats.ParseAcceptsEncodings | db/dbformat.h:174-184 | parsing succeeds exactly on encodings |
| InternalKeyFormats.Compare | db/dbformat.cc:47-63 | comparing encoded keys is the order of the model's keys |
| InternalKeyFormats.FindShortestSeparator | db/dbformat.cc:65-82 | an internal key in [start, limit); start itself when it is not before the limit; with a byte free where the user keys first differ, shortened exactly when some shorter user key lies strictly between, to the least of the shortest |
| InternalKeyFormats.NoFreeByteKeepsStart | util/comparator.cc:45-49 | without a free byte the key stays although a shorter one lies between: an example |
| InternalKeyFormats.FindShortSuccessor | db/dbformat.cc:84-97 | an internal key at or after the key; shortened exactly when some shorter user key is later, to the least of the shortest |
| FilterBlocks.FilterBlockBuilder.StartBlock | table/filter_block.cc:24-32 | filters are generated up to the slot of the offset |
| FilterBlocks.FilterBlockBuilder.Finish | table/filter_block.cc:41-58 | the layout of the filter block |
| FilterBlocks.FilterBlockReader.KeyMayMatch | table/filter_block.cc:104-118 | on a filter block: what the policy says of the filter in the slot of the offset, an empty one for a slot without keys; past the last slot everything matches |
| FilterBlocks.NeverRulesOut | table/filter_block.cc:24-118 | a key added for the block at an offset is never ruled out for that offset |
| Blooms.CreateFilter | util/bloom.cc:28-54 | the bytes of the filter over the keys; every key matches it |
| Blooms.CreatedMatches | util/bloom.cc:28-80 | every key matches its filter, every bit that is set is a probe of some key, and the filter has the bytes for the bits asked for, 64 at least |
| Blooms.BloomIsSound | util/bloom.cc:28-80 | the Bloom filter, on bytes and for any hash, is a policy without false negatives, as the filter block needs |
| Blooms.KeyMayMatch | util/bloom.cc:56-80 | on the bytes of a filter: whether all probes of the key are set; filters with over 30 probes always match |
| Blooms.ProbeIs | util/bloom.cc:45-53 | probe number j is the hash plus j times its rotation, in 32 bits |
| Blooms.RotatedBits | util/bloom.cc:47 | the rotation brings the low 17 bits to the top |
| SkipLists.ReaderMissesNothing | db/skiplist.h:316-443 | however the stores of a writer and the steps of a reader that starts at the head interleave, the reader's answer is at or after its key and skips nothing that was in the list when it began |
| SkipLists.EveryScheduleFinds | db/skiplist.h:316-343 | every step of such a run keeps the reader before its key and the list whole |
| SkipLists.InterleavingIsSchedule | db/skiplist.h:316-443 | single stores of a writer with the moves of a reader between them, in any interleaving, are such a run |
| SkipLists.StoresServeReaders | db/skiplist.h:316-443 | so that among such stores every reader, whenever it starts, misses nothing |
| SkipLists.StoresJoin | db/skiplist.h:398-443 | the stores of several insertions one after the other are again such stores |
| SkipLists.SkipList.FindGreaterOrEqual | db/skiplist.h:316-343 | the first node at or after the key, and the last node before it on every level |
| SkipLists.SkipList.FindLessThan | db/skiplist.h:343-361 | the last node before the key, or the head |
| SkipLists.SkipList.FindLast | db/skiplist.h:364-382 | the last node, or the head |
| SkipLists.SkipList.Insert | db/skiplist.h:398-443 | the node is spliced in on its levels and on no other; this happens by exactly these stores: the height if it grows, the node, and from the bottom up its own pointer and that of its predecessor on each level; after every one of them the list is whole, and a reader that interleaves with them in any way misses nothing |
| SkipLists.SkipList.Publish | db/skiplist.h:434-441 | after each single pointer store the list is whole and has lost nothing |
| SkipLists.SkipListIterator.Prev | db/skiplist.h:258-266 | the node before, found by key |
| SkipLists.SkipListIterator.Seek | db/skiplist.h:268-271 | the first node at or after the target |
| LruCaches.LRUCache.Insert | util/cache.cc:267-306 | the new entry replaces the one under its key; the oldest entries that nobody holds go, and no more of them than needed; then the charges fit or no such entry is left |
| LruCaches.LRUCache.Lookup | util/cache.cc:253-260 | exactly the cached handle; it leaves the LRU list |
| LruCaches.LRUCache.Release | util/cache.cc:262-265 | one reference less; the newest place of the LRU list, or the deleter, once |
| LruCaches.LRUCache.Erase | util/cache.cc:319-322 | the key is no longer cached; clients keep their handles |
| LruCaches.LRUCache.Prune | util/cache.cc:324-333 | every entry that nobody holds goes, and no other |
| LruCaches.LRUCache.Unref | util/cache.cc:226-238 | the deleter runs exactly when the last reference goes |
| HandleTables.HandleTable.Insert | util/cache.cc:79-93 | the table is the map with the key set; there are never more handles than buckets, and buckets are added only when there would be |
| HandleTables.HandleTable.Remove | util/cache.cc:95-103 | the map without the key |
| HandleTables.HandleTable.Resize | util/cache.cc:123-148 | every handle is found again, and there are no more than twice the buckets needed, or four |
| HandleTables.HandleTable.FindPointer | util/cache.cc:115-121 | the slot of the key, or the end of its bucket |
| Crc32c.Extend | util/crc32c.cc:276-377 | for every buffer, length, alignment and starting value: the four interleaved lanes give what one byte at a time gives |
| Crc32c.ExtendLanes | util/crc32c.cc:317-358 | the loop over the lanes and their combination |
| Crc32c.StrideAdvances | util/crc32c.cc:293-300 | a table step advances a word of the register by sixteen zero bytes |
| Crc32c.ExtendTwice | util/crc32c.h:17-21 | extending twice is extending by both |
| Crc32c.OneByteMatters | util/crc32c.cc:276-377 | data that differ in one byte have different checksums |
| Crc32c.OddDifferencesShow | util/crc32c.cc:276-377 | data of one length that differ in an odd number of bits have different checksums: the polynomial has an odd number of bits, so that every step of the register keeps its parity |
| CrcValues.ZeroesChecksum | util/crc32c_test.cc:15-17 | 32 bytes of zeroes have the checksum 0x8a9136aa (section B.4 of RFC 3720) |
| CrcValues.IncreasingChecksum | util/crc32c_test.cc:22-25 | and the bytes from 0 to 31 have 0x46dd794e |
| Crc32c.MaskRoundTrip | util/crc32c.h:28-39 | unmasking a masked checksum gives it back |
| Coding.EncodeVarint64 | util/coding.cc:55-64 | the varint of the value |
| Coding.GetVarint | util/coding.cc:86-131 | the shifting loop is the recursive scan |
| Coding.Varint64RoundTrip | util/coding.cc:55-143 | a varint decodes before any suffix |
| Coding.ScanFailsIffUnterminated | util/coding.cc:86-143 | nothing is read exactly when no byte in reach ends the varint |
| Coding.VarintPrefixFree | util/coding.cc:55-143 | no varint starts another one |
| Coding.VarintLength | util/coding.cc:77-84 | the length of the encoding |
| Coding.GetLengthPrefixedSlice | util/coding.cc:145-154 | the string after its length, or nothing |
| Coding.FixedIsLittleEndian | util/coding.h:53-75 | byte i of a fixed-width number is digit i in base 256, the least significant first |
| Coding.VarintDigits | util/coding.cc:55-64 | byte i of a varint is digit i in base 128, with the top bit in all but the last; it has as many bytes as the number has digits |

## Left out

- Databases.DBImpl.FinishCompaction: merging, numbering and installing are one step; other steps come before or after it, as the merge reads only files that do not change.
- MergingIterators.MergingIterator.Next: the children are cursors over sorted runs; that a two-level iterator moves like such a cursor over the concatenation of its blocks, and a block iterator over the entries of its block, is proved beside it, but the classes are not plugged into each other; tables in a version are the runs of entries they hold.
- DbIterators.DBIter.Next: read sampling is left out. The memtable behind an iterator is as it was when the iterator was made; that later entries would change nothing is `DbIterators.LaterEntriesKeepView`.
- Recovery.RecoveryKeepsWrites: an open is one step; that one which is cut short leaves no trace is `Disks.InterruptedOpen`. A write to the manifest is there as a whole or not at all: it is synced before anything relies on it. Crashes are stated for whole batches, and `LogFiles.CutsAreCrashes` takes them to bytes, except for the sync flag, which is only there to say what was promised. The pieces in which records are replayed may be cut anywhere, also across two logs, which includes the cuts of the code.
- Recovery.DbStepKeepsIffFits: `reuse_logs`, the log number of old format versions, repair and background errors are not modelled, and a failed write to the log does not occur. A new log or table gets some free number, not the next one of a counter.
- Databases.DBImpl.CompactMemTable: building a table is atomic and succeeds; its size is a function of its entries that the caller supplies.
- Blooms.CreateFilter: the hash is a parameter, as is the number of probes; the bits are those of the double hash in 32 bits.
- Logs.Writer.AddRecord: the checksum of a log is any 32-bit function of type and data, of which the masked CRC32C is one; fragments that collide under it are not told apart.
- LogReaders.Reader.ReadRecord: a non-zero initial offset and its resynchronisation are left out.
- Blocks.BlockBuilder.Add: the sum of an entry's lengths does not wrap around in 32 bits; keys and values are shorter than 4 GB as the format demands.
- LruCaches.LRUCache.Insert: the linked lists are sequences without repetition, and handles are numbers; the sixteen shards are left out.
- HandleTables.HandleTable.Insert: the chain of a bucket is a sequence.
- SkipLists.SkipList.Insert: the height is a parameter; stores and loads of pointers are single steps in one order that all threads see.
- Crc32c.Extend: words are sets of bit positions, as machine words only in `CrcValues`; the choice of a hardware routine is left out.
- TableBuilders.GetBack: filters of a table take less than 4 GB and its offsets 64 bits, the widths in which the format stores them; a larger filter block would be misread.
- FilterBlocks.FilterBlockReader.KeyMayMatch: what it answers is stated for filter blocks that a builder made; damaged ones are only read without failing.
- TableBuilders.TableBuilder.Add: data blocks are kept as their entries under the handle they were written with; compression, checksums of blocks, the footer and the metaindex block are left out.
- Files, environments, clocks, threads and memory order: files are values, the mutex makes steps atomic.
- InternalKeyFormats.FindShortestSeparator: that a key is shortened whenever a shorter one lies strictly between is false without a byte free where the two first differ; `NoFreeByteKeepsStart` gives such keys.
- Compaction pointers are kept in memory and in single version edits, not in the manifest of `Recovery`.
- Compaction scores, seek sampling, statistics and level byte limits: the model lets the caller name any level or file that the code could name.
- Error paths: unparsable internal keys inside compactions, I/O errors other than those that WriteQueues reports to a group, corrupted blocks beyond what BlockIterators rejects.
- Snappy and Zstd, arenas, random numbers, table cache, file names, repair, C bindings, tools and benchmarks.
