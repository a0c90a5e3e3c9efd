# Scorch and its neighbours, verified

This project models the parts of the bleve search library whose correctness rests on more than one
function, and proves what they promise. Everything is Dafny 4.11; `dafny verify dfyconfig.toml`
checks all of it.

## What is modelled

**The snapshot protocol of the scorch index.** Clients prepare batches against a root that may be
stale when the introducer gets to them; a merger rewrites file segments read from an older root; a
persister captures a root, possibly merges its in-memory segments first, writes files, swaps the
reopened segments in, commits a bolt record, and purges old records and files between flushes;
backups keep files; the process may crash, reopen or be rolled back at any point. `Protocol.dfy`
states this as a transition system with one step for each stretch between two points where a
goroutine can be interrupted. `ProtocolInvariant.dfy` says what every reachable state satisfies;
`RootSteps`, `BatchSteps`, `MergeSteps`, `FlushSteps`, `CommitSteps`, `PurgeSteps` and `ReopenSteps`
prove that each step keeps it; `Runs.dfy` draws the conclusions for whole runs: the root always
represents the map from document id to document that the introduced batches build (`IndexSpec.dfy`),
acknowledged batches survive any number of crashes, every file that bolt lists exists, and channels
and callbacks fire once and in order. `StepEffects.dfy` says for each part of the state what every
step makes of it: who is told and what, which files are marked and which are on disk, what bolt
holds, who waits. `Progress.dfy` shows that a flush that meets no error makes everything introduced
so far durable and tells everybody who waited.

The loops that compute each step are written as methods and tied to the functions that the
transition system uses: `Introducer.dfy`, `Merger.dfy`, `Persister.dfy`, `FlushWorkers.dfy`,
`Recovery.dfy`, `Purger.dfy`. Documents are a sequence of (id, document) entries; a segment is immutable; a deleted
bitmap is a set of document numbers; the segment plugin, bolt and the file system are contracts
(`Merge` concatenates survivors and reports the numbering, `Persist` and `Open` keep it, a bolt
transaction is atomic, a cursor visits keys in byte order). A file is named by the id of its
segment, since the hexadecimal name is determined by the id.

`FailedCommit`, `UnsafePurge`, `SkippedMerge` and `WorkersRecord` state where the protocol does not keep what one
would expect, and exactly when it does.

**Reference counts.** `RefCounts.dfy` (the counters of snapshots and segments and what each
operation does to them), `IntroductionParts.dfy` (which segments each of the three introductions
keeps and which it takes over from their makers), `References.dfy` (every step of the transition
system with the references that the introducer, the merger, the persister and backups take and give
back: in every state of every run exactly the segments in use are open, and nothing leaks).

**Readers.** `Postings.dfy` (the iterators of a segment: the plugin's, a bitmap's, that of a single
number, and none), `TermCursor.dfy` and `Lookup.dfy` (one cursor over all segments, over any of these
iterators; looking up a document is looking it up in the map), `Unadorned.dfy` (conjunctions and
disjunctions over shared bitmaps), `FieldDict.dfy` (the heap of dictionary cursors).

**Search results.** `Ranking.dfy` (the hit order), `Paging.dfy` (trees of aliases whose targets answer
in any order) and `UnsortedPages.dfy` (requests without sort fields).

**Algorithms and codecs.** `Levenshtein.dfy`, `Uvarint.dfy` with `BoltCursor.dfy`,
`PrefixCoded.dfy`, `Varint.dfy` with `Rows.dfy`, `GeoHash.dfy`. `Formats.dfy` states the encodings
byte by byte, `Parsing.dfy` exactly which bytes are accepted and what is read from them.

## What was found

- A commit that fails after the new segments were swapped into the root leaves files of the root
  that neither bolt lists nor `ineligibleForRemoval` holds (`introducePersist` marks nothing,
  index/scorch/introducer.go:256-333). The loop retries through `pausePersisterForMergerCatchUp`,
  which may purge files first (index/scorch/persister.go:304-309); the next flush then commits a
  record whose file is gone, callbacks fire, and a crash loses the documents.
  `FailedCommit.PurgeAfterFailedCommit` is such a run; with one file it needs
  `PersisterNapUnderNumFiles` set to 0, with the default of 1000 it needs that many files.
  A purge keeps every guarantee if and only if each file of the root is listed in bolt, marked, or
  scheduled for a backup (`PurgeSteps.PurgeFilesKeepsInvIff`). From any state in which one is not, the
  purge and the flush after it commit a newest snapshot that cannot be loaded, with callbacks fired
  (`UnsafePurge.UnsafePurgeLoses`). Runs in which no flush fails never get there
  (`UnsafePurge.WithoutFailures`).
- An in-memory merge whose introduction is skipped leaves its file marked ineligible for removal, on
  disk and in no snapshot, until the index is opened again (`SkippedMerge.SkippedIsStuck`,
  `SkippedMerge.StuckThroughRun`; the file merger clears the mark, index/scorch/merge.go:433-437, this
  path does not, index/scorch/merge.go:624-629). The mark can be cleared if and only if the root still
  held a live document of the merged segments (`SkippedMerge.UnmarkedIff`).
- With several persister workers, or one with a size limit, a flush that reports success may commit a
  record that opening cannot load, or one that lacks documents. What is committed is the captured
  snapshot itself when fewer than two segments were taken (index/scorch/persister.go:484-486) or when
  the introducer kept no output (index/scorch/merge.go:624-629, index/scorch/persister.go:363-372), and
  the stand-in otherwise. So opening gives back the captured documents if and only if fewer than two
  segments were taken, or the root held nothing of them any more, or every in-memory segment found a
  worker without a group and the root still held a live document of each group
  (`WorkersRecord.GroupsFlushIff`; `WorkersRecord.ThirdSegmentIsLost` and
  `WorkersRecord.FirstGroupIsLost` are the two ways to fail). The default one-shot flush is not
  affected. When several groups were merged and only some outputs were kept, the dropped ones are
  never closed (`IntroductionParts.DroppedAmongKept`).
- A bitmap iterator cuts its target to 32 bits. It finds what the whole target would if and only if
  the target fits or is above everything left even when cut (`Postings.TruncatedTarget`); a reader
  over such an iterator goes back from the target 2^32 (`Lookup.BeyondTheBitmap`). Targets that are
  document numbers of a snapshot are always reached (`Lookup.DocumentsAreReached`).
- A reader of a term whose bitmaps a conjunction narrowed gets all hits of the term again when it goes
  back (`Lookup.OwnHitsAgain`), a reader of a whole query its own.
- `decodeUvarintAscending` accepts input that starts with no key: every first byte below 136 wraps
  around to a huge number (`Uvarint.LowFirstByteWraps`), and bytes that a number does not need are
  accepted. `Uvarint.DecodesAKeyIff` says exactly which input is a key and a rest. Recovery relies on
  the named buckets being told apart before decoding.
- A page of size 0 of several targets is not trimmed, so hits come back
  (`Paging.SizeZeroIsNotEmpty`); `Paging.SizeZeroIff` says exactly when none do.
- Without sort fields an alias does not sort what it gathers: it returns the hits of whichever index
  answers first, then those of the next. `UnsortedPages.UnsortedPageIff` says for which hit counts,
  From and Size that is a page by hit number; `UnsortedPages.WithoutSortFields` is a page that is not.
- `Shift` refuses shift 63, which the encoder accepts (`PrefixCoded.CodeReadsBack`).
- The bounded Levenshtein distance may return a value above the bound with the flag unset
  (`Levenshtein.AboveBoundUnflagged`); a flagged result is never within the bound.

## Model

| member | source | states |
|---|---|---|
| Segments.LiveObsolete | index/scorch/introducer.go:133-168 | adding the numbers of a batch's ids to a deleted bitmap removes exactly the live documents with those ids |
| Segments.NewNumberFindsDocument | index/scorch/merge.go:356-405 | the numbering that a merge reports leads each surviving document to its own copy |
| Segments.TranslatedMember | index/scorch/introducer.go:363-391 | the translated bitmap consists of exactly the new numbers of the inputs' later deletes |
| Segments.LiveMerged | index/scorch/introducer.go:363-429 | deleting the translated numbers from the merged segment leaves the same documents, in the same order, as deleting the originals from the inputs and merging again |
| Snapshots.BatchContents | index/scorch/introducer.go:129-204 | a batch removes every live copy of the ids it mentions and appends its own documents, whichever root its obsoletes were computed from |
| Snapshots.SurvivorsOk | index/scorch/introducer.go:170-180 | segments left after a batch have distinct ids, bitmaps within the segment and a live document |
| Snapshots.PersistContents | index/scorch/introducer.go:278-312 | replacing segments by their persisted copies changes no document and no offset |
| Snapshots.InternalAfterBatch | index/scorch/introducer.go:211-222 | after a batch a key that was set has its new value, a deleted one is absent, and any other key is there exactly if it was, with its old value |
| MergeContents.NewDeletedIsTranslated | index/scorch/introducer.go:349-429 | the bitmap collected for a worker's output is the translation of all deletes made since the merge read its inputs, inputs gone from the root counting as wholly deleted |
| MergeContents.SplitContents | index/scorch/introducer.go:363-416 | for any distinct inputs the root's documents split into what it still holds of them and the segments that stay |
| MergeContents.NewSegmentContents | index/scorch/introducer.go:431-466 | an output with its bitmap holds exactly what the root still holds of its inputs; one that is dropped would hold nothing |
| MergeContents.MergeKeepsContents | index/scorch/introducer.go:337-506 | introducing a merge with any number of outputs, planned against any earlier root, keeps every live document as often as it was |
| MergeContents.MergeKeepsOk | index/scorch/introducer.go:388-466 | distinct ids, bitmaps in range and a live document in every segment survive a merge |
| Introducer.Scorch.constructor | index/scorch/scorch.go:112-178 | the first root is empty and the next epoch is 1 |
| Introducer.Scorch.IntroduceSegment | index/scorch/introducer.go:106-254 | the new root, epoch counter, ineligible files, channels and callbacks after a batch; key by key, what becomes of the internal values |
| Introducer.Scorch.IntroducePersist | index/scorch/introducer.go:256-333 | the new root and epoch counter after a persist; nothing else changes |
| Introducer.Scorch.IntroduceMerge | index/scorch/introducer.go:337-506 | the new root, epoch counter, ineligible files and the skipped flag after a merge |
| Introducer.ApplyObsoletes | index/scorch/introducer.go:129-192 | the loop over the root's segments yields the survivors with prefix-sum offsets and the files of emptied segments |
| Introducer.ReplaceInputs | index/scorch/introducer.go:361-416 | the loop keeps what is no input, translates later deletes of inputs, and leaves in the history the inputs it did not meet |
| Introducer.DeleteObsolete | index/scorch/introducer.go:417-429 | afterwards each worker's bitmap is complete |
| Introducer.AppendNew | index/scorch/introducer.go:431-466 | outputs with a live document are appended in worker order; skipped means that none was |
| Introducer.SetInternal | index/scorch/introducer.go:211-222 | a key that the batch sets has the batch's value whether or not it was there, a deleted one is gone, and any other keeps its value |
| Merger.RunMergeTask | index/scorch/merge.go:320-405 | for a task of file segments with live documents, the renumbering of each input stands at its own history entry |
| MergeSteps.TasksHaveLiveFiles | index/scorch/merge.go:277-326 | any task drawn from the files of a root that the merger took consists of segments with live documents |
| MergeSteps.TaskCanBeMerged | index/scorch/merge.go:320-405 | so the merge that the loop builds for it is one that the protocol takes |
| Merger.MergeInMemorySegments | index/scorch/merge.go:498-608 | the history handed to the introducer names for every input its worker, its renumbering and the merged state |
| Merger.BuiltFromInBounds | index/scorch/introducer.go:363-429 | for such a task no index of the merge introduction is out of range |
| IndexSpec.BatchRefines | index/scorch/introducer.go:106-254 | introducing a prepared batch is applying the batch to the map |
| IndexSpec.ApplyBatchSets | index/scorch/introducer.go:106-254 | in the map, too, documents and internal values that a batch sets have its values, deleted ones are absent, and others are as before |
| IndexSpec.LastBatchDecides | index/scorch/introducer.go:106-254 | of any number of batches the last one that mentions a document or a key decides what the map has for it |
| IndexSpec.NeverMentioned | index/scorch/introducer.go:106-254 | what no batch mentions is not in the map |
| IndexSpec.PersistRefines | index/scorch/introducer.go:256-333 | a persist leaves the map as it is |
| IndexSpec.MergeRefines | index/scorch/introducer.go:337-506 | a merge leaves the map as it is |
| IndexSpec.OneLiveCopy | index/scorch/introducer.go:129-180 | a snapshot that represents the map has at most one live copy of each id |
| IndexSpec.DocCount | index/scorch/snapshot_index.go:471-477 | the sum of the segments' live counts is the number of ids in the map |
| Uvarint.DecodeUvarintAscending | index/scorch/int.go:71-92 | the loop over the bytes computes the decoding, errors and wrap-around included |
| Uvarint.RoundTrip | index/scorch/int.go:40-92 | decoding undoes encoding and leaves any suffix untouched |
| Uvarint.EncodeOrderIff | index/scorch/int.go:40-66 | byte order of keys is the order of the numbers, and equal keys mean equal numbers |
| Uvarint.EncodePrefixFree | index/scorch/int.go:40-66 | no key is a prefix of another |
| Uvarint.EncodeFirstByte | index/scorch/int.go:23-66 | no key starts with the byte of the meta or the internal bucket |
| Uvarint.LowFirstByteWraps | index/scorch/int.go:71-79 | every first byte below 136 is accepted and decoded to 2^64 minus what it lacks |
| Uvarint.DecodesAKeyIff | index/scorch/int.go:40-92 | decoding gives a number and a rest that encode to the input if and only if the first byte is at least 136 and no byte is superfluous |
| Uvarint.DecodedWithoutBeingKeys | index/scorch/int.go:71-92 | the name of the meta bucket and a number with a superfluous byte are decoded without being keys |
| Formats.KeyHasFormat | index/scorch/int.go:40-66 | up to 109 a number is the single byte 136 more; above it is the least number of big-endian bytes, after a byte that is their number added to 245 |
| Parsing.DecodesIff | index/scorch/int.go:71-92 | for all input: what is decoded, and what is left, by first byte, and nothing else is accepted |
| Formats.ByteOrder | index/scorch/persister.go:955-996 | the order of keys: at the first place where they differ one has ended or has the smaller byte |
| BoltCursor.CursorAscends | index/scorch/persister.go:855-861 | a cursor over encoded numbers shows them from the smallest to the largest |
| BoltCursor.KeyDecodes | index/scorch/persister.go:956-990 | each key decodes to its number and is told apart from the named buckets |
| BoltCursor.NamesComeFirst | index/scorch/persister.go:955-968 | the internal and the meta bucket sort before every segment key |
| Store.RecordSegmentsAt | index/scorch/persister.go:679-753 | a record has one bucket for each segment, with its path and deleted bitmap |
| Store.WriteThenLoad | index/scorch/persister.go:608-1000 | loading a written snapshot gives file segments with the same ids and the same documents |
| Store.LoadSegmentsSucceeds | index/scorch/persister.go:932-1058 | a record whose paths are set and whose files exist loads |
| Store.LoadsIff | index/scorch/persister.go:932-1058 | a record loads if and only if every segment names a file that is there, and then to those segments, each once in id order, with the file's documents, the recorded deletes and internal values |
| WorkersRecord.WorkersFlushIff | index/scorch/persister.go:484-552 | whatever the workers merged, opening at what is finally committed gives the captured documents if and only if fewer than two segments were taken, or the root held nothing of them, or every in-memory segment went to a worker and the root still held a live document of what each worker merged |
| WorkersRecord.GroupsFlushIff | index/scorch/persister.go:438-552 | for the groups of the loop, with the in-memory segments that find all workers busy in place of those that went to none |
| WorkersRecord.PersistSnapshotMaybeMerge | index/scorch/persister.go:438-552 | collecting, merging, introducing and choosing what to write gives the stand-in with its exclusions, or the captured snapshot when too few segments were taken or the introduction was skipped |
| WorkersRecord.ThirdSegmentIsLost | index/scorch/persister.go:444-460 | one worker with a limit of one byte and three in-memory segments, all still in the root: such a flush exists, and the captured documents are not given back |
| WorkersRecord.FirstGroupIsLost | index/scorch/persister.go:531-542 | two workers and a root that holds only the third segment: neither are they |
| Persister.PrepareSegment | index/scorch/scorch.go:504-537 | the optimistic obsoletes are the document numbers of the batch's ids in every segment of the root it saw |
| Persister.CollectFlushable | index/scorch/persister.go:419-437 | the one-shot flush takes exactly the in-memory segments, in order, each from its position, the positions ascending |
| Persister.OneShotPicks | index/scorch/persister.go:419-437 | these positions pick the in-memory segments for a single worker, each once |
| Persister.OneShotCanBeMerged | index/scorch/merge.go:498-608 | so the merge of the one-shot flush is one that the protocol takes |
| FlushWorkers.CollectFlushables | index/scorch/persister.go:438-482 | the loop makes the groups that the size limit and the number of workers ask for, and counts what they take |
| FlushWorkers.TakenInOrder | index/scorch/persister.go:438-482 | the groups take the in-memory segments before the one that stops the loop, in order, each once |
| FlushWorkers.TakenIff | index/scorch/persister.go:444-461 | a segment is taken if and only if it is in memory and not every worker has a group when the loop comes to it |
| FlushWorkers.AsSoonAsLarge | index/scorch/persister.go:440-482 | a group is complete as soon as it reaches the size limit and has two segments; only the last may stay below, and then nothing is left over; there are never more groups than workers |
| FlushWorkers.WorkersApart | index/scorch/merge.go:587-603 | the workers' inputs are distinct in-memory segments of the captured snapshot, so their merge can be introduced |
| Persister.Equivalent | index/scorch/persister.go:503-547 | the stand-in lists what was not merged and the new segments without deletes; the former are excluded from writing |
| Persister.EquivalentIsStandIn | index/scorch/persister.go:512-547 | with the one-shot flush that is the captured file segments and the merge of the in-memory ones, whatever was deleted since |
| Persister.PrepareBoltSnapshot | index/scorch/persister.go:608-756 | the bucket afterwards, written over one that may exist: each segment's path and deletes, every internal value, the files it lists and those newly written |
| Recovery.SnapshotCursorSorted | index/scorch/persister.go:955-996 | the order in which the loading loop meets a snapshot's keys is byte order |
| Recovery.LoadSnapshotBucket | index/scorch/persister.go:932-1000 | reading a snapshot through its byte keys is loading the record in id order, failing with the first segment that fails |
| Recovery.LoadFromBolt | index/scorch/persister.go:847-901 | the newest epoch whose record loads becomes the root, none if no record does, and exactly the other epochs become removable |
| Recovery.MaxSegmentIDOnDisk | index/scorch/persister.go:1253-1274 | no segment file has a larger number, some has this one unless it is 0, and a name that is no number is an error |
| Recovery.Rollback | index/scorch/rollback.go:127-214 | exactly the epochs up to the target remain, each with its record, and a target that is not there is refused |
| Purger.GetProtectedSnapshots | index/scorch/persister.go:1142-1160 | with sampling interval 0 the newest snapshots are protected, all of them when fewer than the number to keep exist |
| Purger.Removal.RemoveOldBoltSnapshots | index/scorch/persister.go:1186-1251 | an epoch stays if and only if it was there and at most `keep` exist, or it was not removable, or fewer than `keep` are newer, and with its old record; likewise for what stays removable |
| Purger.Removal.RemoveOldZapFiles | index/scorch/persister.go:1277-1305 | a file stays, with its contents, if and only if a segment bucket of some snapshot names it, it is marked, or its counter is positive |
| Recovery.LoadZapFileNames | index/scorch/persister.go:1427-1461 | walking all snapshot buckets and the segment buckets in each by their byte keys gives the names that some snapshot in bolt lists |
| Purger.Removal.CopyReader | index/scorch/scorch.go:915-941 | each file's counter is the number of open backups that list it |
| Purger.Removal.CloseCopyReader | index/scorch/snapshot_index.go:1054-1075 | closing a backup undoes its own marks only |
| Purger.ListedIsScheduled | index/scorch/persister.go:1293 | a counter is positive exactly while an open backup lists the file |
| ProtocolInvariant.InitialInv | index/scorch/scorch.go:112-178 | a new index satisfies the invariant |
| BatchSteps.PrepareKeepsInv | index/scorch/scorch.go:504-537 | preparing a batch against the current root keeps the invariant |
| BatchSteps.IntroduceBatchKeepsInv | index/scorch/introducer.go:106-254 | introducing a batch prepared against any earlier root keeps it |
| MergeSteps.PlanMergesKeepsInv | index/scorch/merge.go:62-70 | the merger may take the root at any time |
| MergeSteps.MergeFilesKeepsInv | index/scorch/merge.go:320-405 | marking and writing a merge output keeps the invariant |
| MergeSteps.IntroduceFileMergeKeepsInv | index/scorch/merge.go:407-440 | introducing it, or dropping it as obsolete, keeps the invariant, whatever was introduced meanwhile |
| MergeSteps.FinishMergesKeepsInv | index/scorch/merge.go:445-450 | making the inputs' files removable at the end of a round is safe |
| MergeSteps.FailMergeKeepsInv | index/scorch/merge.go:373-388 | a failed merge keeps the invariant |
| MergeSteps.MergeInMemoryKeepsInv | index/scorch/merge.go:525-560 | writing the merge of the in-memory segments keeps the invariant |
| FlushSteps.CaptureKeepsInv | index/scorch/persister.go:138-152 | capturing the root with its waiting channels and callbacks keeps the invariant |
| FlushSteps.EquivalentContents | index/scorch/persister.go:512-547 | the stand-in has exactly the documents of the captured snapshot |
| FlushSteps.IntroduceMemoryMergeKeepsInv | index/scorch/merge.go:598-633 | introducing the in-memory merge keeps the invariant |
| CommitSteps.WriteFilesKeepsInv | index/scorch/persister.go:758-777 | writing files and the uncommitted record keeps the invariant |
| CommitSteps.SwapInKeepsInv | index/scorch/persister.go:778-820 | swapping the reopened segments into whatever root is current keeps the invariant |
| CommitSteps.CommittedRecord | index/scorch/persister.go:614-622 | committing an epoch that bolt already has gives the same segments |
| CommitSteps.CommitKeepsInv | index/scorch/persister.go:821-838 | after a commit the record loads to the map that the captured batches build, and the files it lists may lose their mark |
| CommitSteps.CommitUnnoticedKeepsInv | index/scorch/persister.go:820-828 | when the commit took effect but is reported as failed, the record is right, batches are told of a failure and nothing is unmarked |
| CommitSteps.FailFlushKeepsInv | index/scorch/persister.go:154-180 | a flush that fails before its commit took effect keeps the invariant; callbacks wait for the next one |
| PurgeSteps.PurgeKeepsNewest | index/scorch/persister.go:1186-1251 | purging bolt never removes the newest snapshot |
| PurgeSteps.PurgeBoltKeepsInv | index/scorch/persister.go:1186-1251 | purging bolt keeps the invariant |
| PurgeSteps.MarkEligibleKeepsInv | index/scorch/scorch.go:773-779 | any epoch but the root's may become removable at any time |
| PurgeSteps.PurgeFilesKeepsInvIff | index/scorch/persister.go:1277-1305 | with no flush under way a purge of files keeps the invariant if and only if every file segment of the root is listed in bolt, marked or scheduled for a backup |
| PurgeSteps.PurgeSafeWithoutFailures | index/scorch/persister.go:1277-1305 | that is so whenever no commit failed after its segments were swapped in |
| UnsafePurge.UnsafePurgeLoses | index/scorch/persister.go:304-309 | from any other state with something to flush, the purge, the next flush and a crash can be taken one after the other; the flush makes the newest record one that lists a missing file and cannot be loaded, while its batches count as durable and callbacks have fired, and the new process opens another one |
| UnsafePurge.WithoutFailures | index/scorch/persister.go:95-251 | runs in which no flush fails purge safely, whenever they do |
| SkippedMerge.SkippedIff | index/scorch/introducer.go:431-470 | the introduction of an in-memory merge is skipped exactly when the root holds no live document of its inputs any more |
| SkippedMerge.SkippedIsStuck | index/scorch/merge.go:613-630 | then its file is marked and on disk, and in no snapshot and no goroutine's hands |
| SkippedMerge.StuckThroughRun | index/scorch/persister.go:1277-1305 | such a file stays marked and on disk through any run without a restart |
| SkippedMerge.UnmarkedIff | index/scorch/persister.go:830-836 | a run without a restart can clear the mark if and only if the root still held a live document of the merged segments |
| PurgeSteps.OpenBackupKeepsInv | index/scorch/scorch.go:915-941 | opening a backup keeps the invariant |
| PurgeSteps.CloseBackupKeepsInv | index/scorch/snapshot_index.go:1054-1075 | closing one keeps it |
| ReopenSteps.LoadThenWrite | index/scorch/persister.go:608-1000 | writing a loaded snapshot again gives the segments of the record |
| ReopenSteps.NewestLoads | index/scorch/persister.go:853-893 | opening loads the newest record |
| ReopenSteps.CrashKeepsInv | index/scorch/scorch.go:241-311 | a new process on what any reachable state left on disk satisfies the invariant for the durable batches |
| ReopenSteps.RollbackKeepsInv | index/scorch/rollback.go:127-214 | after a rollback the index opens at the target with the batches that the target covers |
| Runs.StepKeepsInv | index/scorch/introducer.go:50-104 | every step keeps the invariant, a purge of files when it is safe |
| Runs.RunKeepsInv | index/scorch/persister.go:95-251 | every state of every run satisfies the invariant |
| Runs.StepLog | index/scorch/introducer.go:106-254 | batches take effect one at a time and whole; only a restart undoes any, and exactly those not durable or beyond the target |
| Runs.RootIsTheMap | index/scorch/introducer.go:106-506 | in every reachable state the root's live documents are those of the map, once each, and its internal values are the map's but for the persister's statistic |
| Runs.AcknowledgedStays | index/scorch/persister.go:154-200 | an acknowledged batch stays in force through any later steps and crashes, unless the user rolls back |
| Runs.ToldOnceInOrder | index/scorch/persister.go:141-202 | no batch is told twice, the order is that of introduction, and success is told only of durable batches |
| StepEffects.ToldByStep | index/scorch/persister.go:154-160 | a noticed commit tells each batch that waited for the flush of success, once and in order; a flush that ends in any other way tells each of failure; no other step tells anybody, and only a restart forgets |
| StepEffects.CalledByStep | index/scorch/persister.go:170-192 | callbacks fire with a noticed commit, those carried over from earlier attempts first; a flush that ends in any other way carries its callbacks over; no other step fires any |
| StepEffects.BatchesByStep | index/scorch/introducer.go:225-230 | a batch waits under its number from its introduction until the next capture, exactly in the lists that it asked for |
| StepEffects.FlushByStep | index/scorch/persister.go:118-152 | a flush takes the root, the number of batches in it and everybody who waits, and keeps them until it ends; the stand-in is written exactly if the root lists the merge's output |
| StepEffects.MergerByStep | index/scorch/merge.go:433-452 | a round of merges works on the root at its start and remembers exactly the inputs that were merged away |
| StepEffects.MarksByStep | index/scorch/merge.go:356-449 | of every file and every step, whether it is marked ineligible for removal afterwards |
| StepEffects.BoltByStep | index/scorch/persister.go:758-838 | of every step, which records bolt holds afterwards and which epochs are removable |
| StepEffects.DiskByStep | index/scorch/persister.go:1277-1305 | of every file and every step, whether it is on disk afterwards and with which documents |
| StepEffects.SwapInByStep | index/scorch/introducer.go:256-333 | segments keep id, documents and deletes, and those that were written become files, no others |
| StepEffects.BackupsByStep | index/scorch/scorch.go:915-941 | an open backup names every segment of the root it was opened on, and no step but its closing or a restart changes it |
| StepEffects.EpochsByStep | index/scorch/introducer.go:106-130 | every introduction publishes its root under the next epoch, and no other step but a restart replaces the root |
| StepEffects.NumbersAfterRestart | index/scorch/persister.go:1253-1274 | segment ids given out after opening an index that has snapshots are above every file that was on disk |
| Progress.FlushSucceeds | index/scorch/persister.go:95-202 | whenever the persister would start there are at most four steps after which the whole log is durable under the captured epoch, every waiting batch was told of success and every callback fired |
| Progress.CommittedIsDone | index/scorch/persister.go:141-152 | behind a noticed commit the persister starts again if and only if the root is no longer the snapshot it committed |
| Progress.FlushedSurvivesCrash | index/scorch/persister.go:95-202 | opening the index after a crash right behind it gives the map of all batches introduced |
| Runs.RootHasLastSaid | index/scorch/introducer.go:106-254 | in every reachable state a document is live in the root exactly as the last batch that mentions it said, and likewise an internal value |
| Runs.StepKeepsLists | index/scorch/introducer.go:225-230 | no step but a restart loses, repeats or reorders a channel or a callback |
| Runs.DeletesOnlyGrow | index/scorch/introducer.go:129-506 | a segment id keeps its documents and its deletes only grow while the process lives |
| Runs.FilesExist | index/scorch/persister.go:1186-1305 | in every reachable state the files of bolt, of the root and of open backups exist, and the root's are marked or in the newest record |
| Runs.NewestLoadsAfterRun | index/scorch/persister.go:847-893 | in every reachable state opening the index gives the newest record's epoch and the map of the durable batches |
| FailedCommit.PurgeAfterFailedCommit | index/scorch/persister.go:304-309 | a run in which a purge after a failed commit ends with a fired callback and, after a crash, an empty index |
| RefCounts.Counters.constructor | index/scorch/scorch.go:112-178 | the empty root is held by the root pointer |
| RefCounts.Counters.NewSegment | index/scorch/introducer.go:193-198 | a new segment has one reference, its owner's |
| RefCounts.Counters.AddRef | index/scorch/snapshot_index.go:104-108 | taking a snapshot keeps all counts exact |
| RefCounts.Counters.DecRef | index/scorch/snapshot_index.go:110-128 | giving one back keeps them exact; the last holder gives back the segments |
| RefCounts.Counters.Introduce | index/scorch/introducer.go:110-244 | replacing the root by any list of segments kept from it or taken over from their owners releases the old root once and keeps all counts exact |
| RefCounts.Counters.CloseOwned | index/scorch/persister.go:786-795 | a segment that was not taken over is closed by its owner |
| RefCounts.ClosedExactlyWhenUnused | index/scorch/snapshot_index.go:110-128 | a segment's count is zero exactly when it has no owner and no held snapshot lists it |
| IntroductionParts.BatchPartsAre | index/scorch/introducer.go:170-204 | a batch keeps the segments of the old root that survive and takes over the new segment and no other |
| IntroductionParts.PersistPartsAre | index/scorch/introducer.go:278-312 | a persist takes over each reopened segment that the root lists, once, and keeps the others |
| IntroductionParts.MergePartsAre | index/scorch/introducer.go:388-466 | a merge with any number of outputs takes over exactly those that it introduces |
| IntroductionParts.DroppedAmongKept | index/scorch/merge.go:619-630 | once the maker of a merge has its answer, an output is still owned if and only if it was dropped while another was kept |
| IntroductionParts.OwnedIsOpen | index/scorch/snapshot_index.go:110-128 | and what is owned is open |
| References.Process.Perform | index/scorch/introducer.go:50-104 | every step but a restart keeps all counts exact and every segment in flight with one owner, which is taken over or closed |
| References.Process.Run | index/scorch/introducer.go:50-104 | so does any run of a process |
| References.OpenIffUsed | index/scorch/snapshot_index.go:110-128 | in every state of a run exactly those segments are open that are in flight or in a snapshot that somebody holds |
| References.OwnedOnce | index/scorch/merge.go:431-437 | every segment ever made is in flight, or was taken over or closed, once |
| References.NothingLeaks | index/scorch/snapshot_index.go:110-128 | when nothing is under way exactly the root's segments are open |
| Postings.BitmapIterator.NextDocNumAtOrAfter | index/scorch/unadorned.go:59-70 | the first number left at or above the target cut to 32 bits is consumed with everything before it |
| Postings.TruncatedTarget | index/scorch/unadorned.go:59-70 | that finds what the whole target would if and only if the target is below 2^32 or, cut, above everything left; otherwise it finds a number where nothing is left |
| Postings.LetThrough | index/scorch/unadorned.go:59-70 | the number 5 is found from the target 2^32 |
| Postings.OneHitIterator.NextDocNumAtOrAfter | index/scorch/unadorned.go:135-147 | the 1-hit iterator behaves as the iterator over a one-element sequence |
| TermCursor.SegmentIndexAndLocalDocNumFromGlobal | index/scorch/snapshot_index.go:561-568 | the binary search finds the last segment that starts at or below the number |
| TermCursor.GlobalIsBijection | index/scorch/snapshot_index.go:556-568 | every global number below the total belongs to exactly one document of one segment |
| TermCursor.IdsCompareAsNumbers | index/scorch/snapshot_index.go:776-793 | ids are read back and compare as the numbers do |
| TermCursor.TermFieldReader.Next | index/scorch/snapshot_index_tfr.go:81-115 | the least hit of all segments that was not passed yet, or nothing when none is left |
| TermCursor.TermFieldReader.Restart | index/scorch/snapshot_index_tfr.go:147-176 | going back makes every hit available again: of a term all that the snapshot has for it, of a whole query those of its own iterators |
| TermCursor.TermFieldReader.ReplaceActual | index/scorch/optimize.go:104-114 | giving the iterator of a segment a smaller bitmap narrows the reader's hits there and nowhere else |
| TermCursor.TermFieldReader.Advance | index/scorch/snapshot_index_tfr.go:146-205 | over any mix of iterators: the least hit at or above the target, for targets not above the last hit or not below where the cursor stands, if and only if the local target fits the iterator of its segment; otherwise a hit below the target. A reader of a term that goes back has all hits of the term again |
| Lookup.SnapshotLayout | index/scorch/snapshot_index.go:617-702 | the offsets and hits of any snapshot of non-empty segments are laid out as the cursor needs |
| Lookup.HitsAreMatches | index/scorch/snapshot_index.go:670-697 | the hits are exactly the global numbers of the live documents with the term |
| Lookup.Drain | index/scorch/snapshot_index_tfr.go:81-115 | reading to the end gives all hits in ascending order, each once |
| Lookup.OpenQuery | index/scorch/optimize.go:158-263 | a reader over the iterators of a conjunction or disjunction has exactly their numbers as its hits |
| Lookup.DocumentsAreReached | index/scorch/snapshot_index_tfr.go:146-205 | advancing to the number of a document of the snapshot is right whatever iterators there are |
| Lookup.BeyondTheBitmap | index/scorch/unadorned.go:59-70 | advancing a reader over the bitmap of 5 alone to 2^32 returns 5 |
| Lookup.OwnHitsAgain | index/scorch/snapshot_index_tfr.go:149-160 | a reader of the hits 1, 2 and 3 narrowed to 1 and 3, standing at 3, finds 2 again when sent there |
| Lookup.Document | index/scorch/snapshot_index.go:479-505 | looking up an id is looking it up in the map |
| Unadorned.AndSegment | index/scorch/optimize.go:174-258 | the result has exactly the numbers all children have; no existing bitmap changes; it gives up if and only if a child that cannot be optimized is met before the result is known to be empty |
| Unadorned.OrSegment | index/scorch/optimize.go:336-373 | the result has exactly the numbers some child has, in a bitmap of its own; no existing bitmap changes |
| Unadorned.FinishConjunction | index/scorch/optimize.go:158-263 | the same for every segment of the reader built for a whole conjunction, which is refused if and only if there is one child or a segment gives up |
| Unadorned.FinishDisjunction | index/scorch/optimize.go:306-378 | the same for a disjunction, and exactly when it is refused |
| Unadorned.ShareIntersection | index/scorch/optimize.go:77-117 | sharing the intersection among the children leaves their common numbers as they were and adds none to any child |
| FieldDict.Down | index/scorch/snapshot_index_dict.go:43-61 | sifting down restores the heap order and only permutes the cursors |
| FieldDict.MoveRoot | index/scorch/snapshot_index_dict.go:67-79 | moving the root to its next entry, or removing it, keeps the heap and takes away one entry |
| FieldDict.IndexSnapshotFieldDict.constructor | index/scorch/snapshot_index.go:207-210 | heap initialization keeps the cursors and establishes the heap order |
| FieldDict.IndexSnapshotFieldDict.Next | index/scorch/snapshot_index_dict.go:62-97 | the least term left with the sum of its counts over all segments, which is then gone, while all others stay |
| FieldDict.Drain | index/scorch/snapshot_index_dict.go:62-97 | read to its end, the dictionary has strictly ascending terms, exactly the union of the segments' terms, each with its total count |
| Ranking.Compare | search/sort.go:240-275 | the first field in which the hits differ decides: negative if and only if the first hit is lower there and the field ascends, or higher and it descends; if none differs, the lower hit number is first |
| Ranking.CompareFlips | search/sort.go:240-275 | exchanging the hits flips the sign |
| Ranking.CompareTransitive | search/sort.go:240-275 | the order is transitive, with any mix of directions and of scores and terms |
| Ranking.LessIsBefore | search/sort.go:240-275 | the order in which hits are sorted is that of scores and bytes in the first field that differs, by its direction, then of hit numbers |
| Ranking.SortedUnique | index_alias_impl.go:955-960 | hits that the order tells apart can be sorted in one way only |
| Paging.HitsInCurrentPage | index_alias_impl.go:954-972 | the page cut from the hits, sorted when there are sort fields, for any page |
| Paging.SearchInContext | index_alias_impl.go:178-309 | the recursive search over an alias tree, children asked for From+Size hits and answering in any order, failing ones left out, for any page and any sort order |
| Paging.TopOfUnion | search.go:596-610 | the best hits of a union need only the best hits of its parts |
| Paging.PageOfUnion | index_alias_impl.go:1005-1054 | for any tree of aliases, any page of positive size and any order in which results arrive, the result is that page of the flattened union of the indexes that answer |
| Paging.PageRanks | index_alias_impl.go:954-972 | at place k of the page of any tree is the hit of the union that From + k hits come before, each hit comes before the next, and the page is as long as size and the hits allow |
| Paging.SizeZeroIsNotEmpty | index_alias_impl.go:967-971 | an alias of two indexes searched with From 1 and size 0 returns a hit |
| Paging.SizeZeroIff | index_alias_impl.go:954-972 | in whatever order results arrive, a page of size 0 of any tree that answers is empty if and only if nothing is left over: one index answers, From is 0, no more hits than From exist, or one target has all of them |
| UnsortedPages.UnsortedPage | index_alias_impl.go:954-972 | without sort fields the page consists of positions From to From+Size of the hits of all indexes, one index after the other |
| UnsortedPages.UnsortedPageIff | index_alias_impl.go:1005-1054 | that is a page of the union by hit number if and only if each position has the number that belongs there, which the hit counts in the order of arrival decide |
| UnsortedPages.WithoutSortFields | index_alias_impl.go:957-960 | two indexes with the hits 1 and 2 each and a page of size 2: both hits of the first, which is no page by hit number |
| Levenshtein.NextRow | search/levenshtein.go:89-112 | one pass turns the row of distances to a prefix into that of the next prefix, and the minimum it reports leaves out column 0 |
| Levenshtein.LevenshteinDistance | search/levenshtein.go:21-52 | the single row computes the recursive edit distance |
| Levenshtein.LevenshteinDistanceMaxReuseSlice | search/levenshtein.go:64-118 | it gives up exactly when the length gap or a whole row is above the bound; then the distance is above it, otherwise the result is exact, whatever the reused slice held |
| Levenshtein.WithinBoundIsExact | search/levenshtein.go:54-62 | a distance within the bound is always returned exactly |
| Levenshtein.AboveBoundUnflagged | search/levenshtein.go:113-117 | a distance above the bound may be returned with the flag unset |
| Levenshtein.EditsSuffice | search/levenshtein.go:21-52 | as many edits as the distance turn one string into the other |
| Levenshtein.EditsNeeded | search/levenshtein.go:21-52 | no fewer do |
| Levenshtein.Symmetric | search/levenshtein.go:21-52 | the distance is symmetric |
| Levenshtein.ZeroMeansEqual | search/levenshtein.go:21-52 | it is 0 exactly for equal strings |
| Levenshtein.Triangle | search/levenshtein.go:21-52 | it obeys the triangle inequality |
| PrefixCoded.NewPrefixCodedInt64 | numeric/prefix_coded.go:30-59 | the bytes filled in from the end are the code; shifts above 63 are refused |
| PrefixCoded.Int64 | numeric/prefix_coded.go:82-92 | the loop reads the digits in 64 bits, overlapping bytes included |
| PrefixCoded.CodeReadsBack | numeric/prefix_coded.go:71-92 | a code decodes if and only if its shift is below 63, and then to the number with its low bits cleared |
| PrefixCoded.CodesSort | numeric/prefix_coded.go:30-59 | byte order of codes of one shift is the order of the shifted numbers |
| PrefixCoded.CodesAreValid | numeric/prefix_coded.go:98-111 | the validator accepts every code with its shift |
| Parsing.ValidIff | numeric/prefix_coded.go:98-111 | for all input: the validator accepts exactly first byte and length of the codes of some shift, and reports that shift |
| PrefixCoded.FloatBitsReadBack | numeric/float.go:21-34 | the two mappings between doubles and integers undo each other on all bit patterns |
| PrefixCoded.DoublesSort | numeric/float.go:21-27 | integers order finite doubles by value, with the negative zero just below the positive one |
| PrefixCoded.CodesOfDoublesSort | numeric/prefix_coded.go:30-59 | hence codes of any two finite doubles sort as the doubles do, the negative zero just before the positive one |
| Formats.CodeHasFormat | numeric/prefix_coded.go:30-59 | the first byte is the shift and 0x20, then the shifted number with its sign bit flipped, in seven-bit bytes, most significant first |
| Formats.DoubleHasFormat | numeric/float.go:21-27 | the bits of a double without sign are the integer; with a sign they count down from -1 |
| Parsing.PrefixIsRead | numeric/prefix_coded.go:71-92 | first bytes from 0x20 to 0x5e are accepted, and then seven-bit bytes of any length are read as the number with those digits, shifted back in 64 bits, with the sign bit flipped |
| Varint.ReadBack | index/upsidedown/row.go:501-519 | a number takes at most ten bytes and is read back whatever follows |
| Varint.PutUvarint | index/upsidedown/row.go:501-519 | writing a number appends its bytes to what was written before |
| Formats.VarintHasFormat | index/upsidedown/row.go:501-519 | the least number of seven-bit bytes, least significant first, the top bit set on all but the last |
| Parsing.ReadsIff | index/upsidedown/row.go:595-673 | a number is read if and only if one ends within ten bytes and fits 64 bits, and its digits are the low seven bits of its bytes |
| Rows.TermFrequencyRowKeyTo | index/upsidedown/row.go:446-461 | the key fills exactly the announced size |
| Rows.TermKeyReadsBack | index/upsidedown/row.go:564-584 | a key is parsed back if and only if its term has no separator byte and its document id is not empty |
| Formats.TermKeyHasFormat | index/upsidedown/row.go:446-461 | a term key is 0x74, the field in two bytes with the low one first, the term, 0xff, and the document id |
| Parsing.TermKeyIff | index/upsidedown/row.go:564-584 | for all input: the bytes that are accepted as a term key, and the key they stand for |
| Rows.ValueTo | index/upsidedown/row.go:493-519 | writing stays within the announced size |
| Rows.ParseV | index/upsidedown/row.go:595-673 | the loop with its running offset parses vector after vector, with its error cases |
| Rows.TermValueReadsBack | index/upsidedown/row.go:493-673 | every value, whatever its vectors and array positions, is parsed back |
| Formats.TermValueHasFormat | index/upsidedown/row.go:493-519 | a value is the varints of frequency, norm, and of each vector field, position, start, end, the number of array positions and those |
| Parsing.TermValueIff | index/upsidedown/row.go:595-673 | for all input: a value is accepted if and only if its bytes are, to the last one, the numbers of frequency, norm and vectors, norm cut to 32 bits and fields to 16 |
| Parsing.TermValueWithoutVectorsIff | index/upsidedown/row.go:595-625 | without vectors two numbers suffice and what follows is not looked at |
| Rows.StoredRowKeyTo | index/upsidedown/row.go:816-832 | the key stays within the announced size |
| Rows.StoredKeyReadsBack | index/upsidedown/row.go:873-905 | a stored key is parsed back if and only if its document id has no separator byte and is not empty |
| Formats.StoredKeyHasFormat | index/upsidedown/row.go:816-832 | a stored key is 0x73, the document id, 0xff, the field in two bytes with the low one first, and the array positions as varints |
| Parsing.StoredKeyIff | index/upsidedown/row.go:873-905 | for all input: the bytes that are accepted as a stored key, with array positions for as long as they can be read |
| GeoHash.EncodeGeoHash | geo/geohash.go:74-111 | the twelve characters hold, longitude first and in turn, the bits of two numbers: how many multiples of 360/2^30 above -180 lie strictly below the longitude, and of 180/2^30 above -90 below the latitude |
| GeoHash.DecodeGeoHash | geo/geohash.go:46-72 | for any characters: every hash holds a column and a row of its grid, and the point is the middle of them |
| GeoHash.EncodeDecoded | geo/geohash.go:46-111 | encoding the decoded centre of any hash of twelve letters returns it |
| GeoHash.DecodeEncoded | geo/geohash.go:46-111 | decoding an encoded point gives latitude within 90/2^30 and longitude within 180/2^30 |

## Left out

- Several persister workers (index/scorch/persister.go:438-482) take no part in the steps of the transition system: runs flush in one shot. What such a flush commits is `WorkersRecord.GroupsFlushIff`; `introduceMerge` is proved for any number of outputs.
- Runs.StepKeepsInv: a purge of files is taken when `PurgeSteps.PurgeIsSafe` holds; what happens otherwise is stated by `UnsafePurge.UnsafePurgeLoses`.
- Merger.RunMergeTask: alignment is promised for tasks without empty segments; empty ones do not occur (`MergeSteps.TasksHaveLiveFiles`).
- TermCursor.TermFieldReader.ReplaceActual: one segment of one reader; that a conjunction gives all its readers the same bitmap is `Unadorned.ShareIntersection`.
- TermCursor.TermFieldReader.Advance: nothing is promised for a target between the last hit and an earlier target that found nothing; hits in between may have been passed. A reader on a snapshot without segments is not advanced either, where the source would index out of range.
- Runs of `References.Process` have one output per merge, as the steps of the transition system do; for several see `IntroductionParts.DroppedAmongKept`.
- Paging.PageOfUnion: for a positive size (see `Paging.SizeZeroIff`), a non-empty sort order (see `UnsortedPages.UnsortedPageIff`), and an order that tells all hits apart; hits of different indexes with equal sort values and hit numbers may come in either order.
- 64-bit overflow of epochs, segment ids and global document numbers; a segment with more than 2^32 documents, whose numbers a bitmap cannot hold.
- The in-memory-only index (no path, no persister), read-only opening, the offline builder, and `UpdateFields`.
- Buckets that bolt cannot read, errors of `DocNumbers`, and of reading the directory.
- Time-based snapshot retention, persister naps, merge-plan scoring, statistics, events and asynchronous error callbacks.
- Memory pressure decides whether the in-memory merge is tried; the model allows both.
- A batch that waits is prepared in one step with taking its id; the order of the two does not matter to the proof.
- Which epochs become removable when: any epoch but the root's may, at any time, which includes what releasing snapshots does.
- Recycling of term-field readers and reuse of id buffers; ids are numbers.
- Search-before reversal, pre-search data, score fusion, facets, highlighting and nearest-neighbour hits.
- The `Prealloc` variant's buffer handling; float bits other than the sign, exponent and fraction of finite doubles.
- A very large array-position count makes the row parser allocate before it fails; the model only fails.
- Documents are opaque; analysis, mapping and the segment file format are not modelled.
