/** What each step changes, one part of the state at a time: who is told, which marks are set and
    cleared, what bolt and the disk hold, and what the root lists. */
module StepEffects {
  import opened Options
  import opened Segments
  import opened Snapshots
  import opened IndexSpec
  import opened Store
  import opened Introducer
  import opened Protocol
  import opened ProtocolInvariant
  import opened RootSteps
  import MergeSteps
  import opened CommitSteps
  import opened PurgeSteps
  import opened ReopenSteps
  import opened Runs

  // ---- who is told ----

  /** Every batch that waits for the flush is told once, in order, of success or of failure. */
  ghost predicate AllTold(s: State, t: State, ok: bool) {
    && s.flush.Flushing? && s.closed <= t.closed && |t.closed| == |s.closed| + |s.flush.acks|
    && forall k | 0 <= k < |s.flush.acks| ::
         t.closed[|s.closed| + k].batch == s.flush.acks[k] && t.closed[|s.closed| + k].ok == ok
  }

  ghost predicate Told(s: State, step: Step, t: State) {
    match step
    case Commit => AllTold(s, t, true)
    case CommitUnnoticed => AllTold(s, t, false)
    case FailFlush => AllTold(s, t, false)
    case CrashAndReopen => t.closed == []
    case RollbackAndReopen(_) => t.closed == []
    case _ => t.closed == s.closed
  }

  lemma {:induction false} ClosingTells(s: State, t: State, ok: bool)
    requires s.flush.Flushing? && t.closed == s.closed + Closing(s.flush.acks, ok)
    ensures AllTold(s, t, ok)
  {
    var added := Closing(s.flush.acks, ok);
    forall k | 0 <= k < |s.flush.acks|
      ensures t.closed[|s.closed| + k].batch == s.flush.acks[k] && t.closed[|s.closed| + k].ok == ok
    {
      assert t.closed[|s.closed| + k] == added[k];
    }
  }

  /** Success is told by a commit that was noticed, failure by a flush that ends in any other way. */
  lemma {:induction false} ToldByStep(s: State, step: Step)
    requires Enabled(s, step)
    ensures Told(s, step, Do(s, step))
  {
    hide AllTold, Closing, FirstLoadable, AfterBatch, AfterMerge, AfterPersist, PrepareRecord, NewFiles, TaskFor, BatchData, WriteEpoch,
      Obsoletes, LeftInBolt, LeftEligible, Only, Needed, BoltFiles, DroppedByBatch, DroppedByMerge, Max, Ascending, Reopened,
      Excluded, ToWrite, EquivalentSegments, Skipped, UpToEpoch, MemorySegments;
    match step
    case Commit => ClosingTells(s, DoCommit(s), true);
    case CommitUnnoticed => ClosingTells(s, DoCommitUnnoticed(s), false);
    case FailFlush => ClosingTells(s, DoFailFlush(s), false);
    case _ =>
  }

  ghost predicate Called(s: State, step: Step, t: State) {
    match step
    case Commit => s.flush.Flushing? && t.fired == s.fired + s.carried + s.flush.calls && t.carried == []
    case CommitUnnoticed => s.flush.Flushing? && t.fired == s.fired && t.carried == s.carried + s.flush.calls
    case FailFlush => s.flush.Flushing? && t.fired == s.fired && t.carried == s.carried + s.flush.calls
    case CrashAndReopen => t.fired == t.carried == []
    case RollbackAndReopen(_) => t.fired == t.carried == []
    case _ => t.fired == s.fired && t.carried == s.carried
  }

  /** Callbacks fire with a commit that was noticed, those of earlier failures first; otherwise they are
      carried to the next attempt. */
  lemma {:induction false} CalledByStep(s: State, step: Step)
    requires Enabled(s, step)
    ensures Called(s, step, Do(s, step))
  {
    hide FirstLoadable, AfterBatch, AfterMerge, AfterPersist, PrepareRecord, NewFiles, TaskFor, BatchData, WriteEpoch, Closing,
      Obsoletes, LeftInBolt, LeftEligible, Only, Needed, BoltFiles, DroppedByBatch, DroppedByMerge, Max, Ascending, Reopened,
      Excluded, ToWrite, EquivalentSegments, Skipped, UpToEpoch, MemorySegments;
  }

  // ---- marks ----

  predicate ListsFile(segments: seq<SegmentSnapshot>, id: nat) {
    exists i :: 0 <= i < |segments| && segments[i].file && segments[i].id == id
  }

  predicate Lists(segments: seq<SegmentSnapshot>, id: nat) {
    exists i :: 0 <= i < |segments| && segments[i].id == id
  }

  predicate ListedIn(record: Record, id: nat) {
    exists k :: k in record.segments && record.segments[k].path == Some(id)
  }

  /** Whether a file may not be removed after the step. */
  ghost predicate Marked(s: State, step: Step, t: State, id: nat) {
    match step
    // a batch gives up the files of segments that it empties
    case IntroduceBatch(_) => id in s.ineligible && !(ListsFile(s.root.segments, id) && !Lists(t.root.segments, id))
    // new files are marked before they are written
    case MergeFiles(_, _) => id in s.ineligible || id == s.nextSegmentId + 1
    case MergeInMemory(_) => id in s.ineligible || id == s.nextSegmentId + 1
    // the output of a file merge that was dropped or failed is given up, and the inputs when the round is over
    case IntroduceFileMerge => s.merger.Merged? && id in s.ineligible && (id == s.merger.out ==> Lists(t.root.segments, id))
    case FinishMerges => s.merger.Planned? && id in s.ineligible && id !in s.merger.done
    case FailMerge => s.merger.Merged? && id in s.ineligible && id != s.merger.out
    // what bolt lists need not be marked any more
    case Commit => CanCommit(s) && id in s.ineligible && !ListedIn(s.flush.phase.record, id)
    case CrashAndReopen => false
    case RollbackAndReopen(_) => false
    case _ => id in s.ineligible
  }

  lemma {:induction false} ListsIffIds(segments: seq<SegmentSnapshot>, id: nat)
    ensures Lists(segments, id) <==> id in Ids(segments)
    ensures ListsFile(segments, id) <==> id in FileIds(segments)
  {
  }

  lemma {:induction false} ListedIffFiles(record: Record, id: nat)
    ensures ListedIn(record, id) <==> id in record.Files()
  {
  }

  /** A batch drops exactly the files of the segments that the new root does not list. */
  lemma {:induction false} DroppedIff(segments: seq<SegmentSnapshot>, b: SegmentIntroduction, id: nat)
    requires DistinctIds(segments) && b.id !in Ids(segments)
    ensures id in DroppedByBatch(segments, b) <==> ListsFile(segments, id) && !Lists(SegmentsAfterBatch(segments, b), id)
  {
    hide Obsoleted;
    SurvivorIdsListed(segments, b);
    if i :| 0 <= i < |segments| && segments[i].id == id {
      SurvivesIff(segments, b, i);
      forall k | 0 <= k < |segments| && segments[k].id == id
        ensures k == i
      {
      }
    }
    AfterBatchIds(segments, b);
    ListsIffIds(SegmentsAfterBatch(segments, b), id);
  }

  lemma {:induction false} AfterBatchIds(segments: seq<SegmentSnapshot>, b: SegmentIntroduction)
    ensures Ids(SegmentsAfterBatch(segments, b)) == if b.data == [] then Ids(Survivors(segments, b)) else Ids(Survivors(segments, b)) + {b.id}
  {
    hide Survivors;
    if b.data != [] {
      var survivors := Survivors(segments, b);
      var now := survivors + [SegmentSnapshot(b.id, b.data, false, {})];
      assert now[|survivors|].id == b.id;
      assert forall i | 0 <= i < |survivors| :: now[i] == survivors[i];
    }
  }

  /** Of one segment more, its id is added when documents are left. */
  lemma {:induction false} SurvivorIdsStep(segments: seq<SegmentSnapshot>, b: SegmentIntroduction, n: nat)
    requires |segments| == n + 1
    ensures Ids(Survivors(segments, b)) ==
            Ids(Survivors(segments[..n], b)) + (if Obsoleted(segments[n], b).LiveSize() > 0 then {segments[n].id} else {})
  {
    var before, s := Survivors(segments[..n], b), Obsoleted(segments[n], b);
    assert s.id == segments[n].id;
    hide Obsoleted, Survivors;
    var now := before + [s];
    assert now[|before|].id == s.id && forall i | 0 <= i < |before| :: now[i] == before[i];
    assert Ids(now) == Ids(before) + {s.id};
    assert Survivors(segments, b) == if s.LiveSize() > 0 then now else before by { UnfoldSurvivors(segments, b, n); }
  }

  lemma {:induction false} UnfoldSurvivors(segments: seq<SegmentSnapshot>, b: SegmentIntroduction, n: nat)
    requires |segments| == n + 1
    ensures var before, s := Survivors(segments[..n], b), Obsoleted(segments[n], b);
            Survivors(segments, b) == if s.LiveSize() > 0 then before + [s] else before
  {
    hide Obsoleted;
  }

  lemma {:induction false} SurvivorIdsListed(segments: seq<SegmentSnapshot>, b: SegmentIntroduction)
    ensures Ids(Survivors(segments, b)) <= Ids(segments)
  {
    if segments != [] {
      var n := |segments| - 1;
      SurvivorIdsListed(segments[..n], b);
      SurvivorIdsStep(segments, b, n);
      hide Obsoleted, Survivors;
      assert segments[n].id in Ids(segments) && Ids(segments[..n]) <= Ids(segments);
    }
  }

  /** A segment stays listed exactly when documents are left in it. */
  lemma {:induction false} SurvivesIff(segments: seq<SegmentSnapshot>, b: SegmentIntroduction, i: nat)
    requires DistinctIds(segments) && i < |segments|
    ensures segments[i].id in Ids(Survivors(segments, b)) <==> Obsoleted(segments[i], b).LiveSize() > 0
    decreases |segments|
  {
    hide Obsoleted, Survivors;
    var n := |segments| - 1;
    SurvivorIdsStep(segments, b, n);
    if i < n {
      SurvivesIff(segments[..n], b, i);
    } else {
      SurvivorIdsListed(segments[..n], b);
      assert segments[n].id !in Ids(segments[..n]);
    }
  }

  /** A merge that was introduced is listed under its id, and one that was skipped is not. */
  lemma {:induction false} IntroducedIffListed(segments: seq<SegmentSnapshot>, task: SegmentMerge, out: nat)
    requires task.ids == [out] && |task.news| == 1 && out !in Ids(segments)
    ensures Lists(SegmentsAfterMerge(segments, task), out) <==> !Skipped(segments, task)
  {
    hide NewDeleted, WorthKeeping, Kept;
    KeptIds(segments, task.history.Keys);
    var kept, added := Kept(segments, task.history.Keys), NewSegments(segments, task, 1);
    assert NewSegments(segments, task, 0) == [];
    forall i | 0 <= i < |kept|
      ensures kept[i].id != out
    {
      assert kept[i].id in Ids(kept);
    }
    if added != [] {
      assert added[0].id == out && (kept + added)[|kept|] == added[0];
    }
  }

  lemma {:induction false} KeptIds(segments: seq<SegmentSnapshot>, gone: set<nat>)
    ensures Ids(Kept(segments, gone)) <= Ids(segments)
  {
    if segments != [] {
      var n := |segments| - 1;
      KeptIds(segments[..n], gone);
      forall i | 0 <= i < |Kept(segments, gone)|
        ensures Kept(segments, gone)[i].id in Ids(segments)
      {
        var kept := Kept(segments[..n], gone);
        if i < |kept| {
          assert kept[i].id in Ids(kept) && kept[i].id in Ids(segments[..n]);
        } else {
          assert segments[n].id in Ids(segments);
        }
      }
    }
  }

  lemma {:induction false} BatchMarks(s: State, i: nat, id: nat)
    requires RootInv(s) && IdsInv(s) && BatchesInv(s) && i in s.batches
    ensures Marked(s, IntroduceBatch(i), DoIntroduceBatch(s, i), id) <==> id in DoIntroduceBatch(s, i).ineligible
  {
    var next := s.batches[i].next;
    assert i in Reserved(s);
    assert BatchOk(s.batches[i], i, s.docsOf) && next.id == i;
    hide Reserved, IdsInv, BatchesInv, BatchOk, SegmentsAfterBatch, DroppedByBatch, ListsFile, Lists, ApplyInternal, Offsets;
    DroppedIff(s.root.segments, next, id);
  }

  lemma {:induction false} FileMergeMarks(s: State, id: nat)
    requires RootInv(s) && IdsInv(s) && MergerInv(s) && s.merger.Merged? && |s.merger.task.news| == |s.merger.task.ids|
    ensures Marked(s, IntroduceFileMerge, DoIntroduceFileMerge(s), id) <==> id in DoIntroduceFileMerge(s).ineligible
  {
    var m := s.merger;
    assert m.out in Reserved(s);
    hide IdsInv, Reserved, DroppedByMerge, Skipped, Lists, SegmentsAfterMerge, EarlierStates, BuiltFrom;
    MergeSteps.NothingDropped(s.root.segments, m.task);
    IntroducedIffListed(s.root.segments, m.task, m.out);
  }

  lemma {:induction false} MemoryMergeMarks(s: State, id: nat)
    requires RootInv(s) && s.flush.Flushing? && s.flush.phase.MergedInMemory?
    requires |s.flush.phase.task.news| == |s.flush.phase.task.ids|
    ensures DoIntroduceMemoryMerge(s).ineligible == s.ineligible
  {
    hide DroppedByMerge, Skipped, AfterMerge, EquivalentSegments;
    MergeSteps.NothingDropped(s.root.segments, s.flush.phase.task);
  }

  lemma {:induction false} CommitMarks(s: State, id: nat)
    requires CanCommit(s)
    ensures Marked(s, Commit, DoCommit(s), id) <==> id in DoCommit(s).ineligible
  {
    hide ListedIn;
    ListedIffFiles(s.flush.phase.record, id);
    hide WriteEpoch, Closing;
  }

  /** Of every file, whether it is marked after a step. */
  lemma {:induction false} MarksByStep(s: State, step: Step, id: nat)
    requires Inv(s) && Enabled(s, step)
    ensures Marked(s, step, Do(s, step), id) <==> id in Do(s, step).ineligible
  {
    hide RootInv, IdsInv, BatchesInv, MergerInv, FlushInv, BoltInv, FileInv, AckInv;
    hide FirstLoadable, AfterBatch, AfterMerge, AfterPersist, PrepareRecord, NewFiles, TaskFor, BatchData, WriteEpoch, Closing,
      Obsoletes, LeftInBolt, LeftEligible, Only, Needed, BoltFiles, DroppedByBatch, DroppedByMerge, Max, Ascending, Reopened,
      Excluded, ToWrite, EquivalentSegments, Skipped, UpToEpoch, MemorySegments, ListsFile, Lists, ListedIn;
    match step
    case IntroduceBatch(i) => BatchMarks(s, i, id);
    case IntroduceFileMerge => FileMergeMarks(s, id);
    case IntroduceMemoryMerge => MemoryMergeMarks(s, id);
    case Commit => CommitMarks(s, id);
    case _ =>
  }

  // ---- bolt ----

  /** What bolt holds after a step: a commit, noticed or not, puts the written record under the epoch of
      the captured snapshot; the purge and a rollback only remove records. */
  ghost predicate BoltAfter(s: State, step: Step, t: State) {
    match step
    case Commit => CanCommit(s) && t.bolt == s.bolt[s.flush.snapshot.epoch := s.flush.phase.record]
    case CommitUnnoticed => CanCommit(s) && t.bolt == s.bolt[s.flush.snapshot.epoch := s.flush.phase.record]
    case PurgeBolt(keep) => Purges(s.bolt, s.eligible, keep, t.bolt, t.eligible)
    case RollbackAndReopen(to) =>
      && (forall e: nat :: e in t.bolt <==> e in s.bolt && e <= to)
      && (forall e: nat | e in s.bolt && e in t.bolt :: t.bolt[e] == s.bolt[e])
    case _ => t.bolt == s.bolt
  }

  /** Which epochs are eligible for removal: a process that starts makes all of them so but the one it opened. */
  ghost predicate EligibleAfter(s: State, step: Step, t: State) {
    match step
    case MarkEligible(epoch) => forall e: nat :: e in t.eligible <==> e in s.eligible || e == epoch
    case PurgeBolt(keep) => Purges(s.bolt, s.eligible, keep, t.bolt, t.eligible)
    case CrashAndReopen => forall e: nat :: e in t.eligible <==> e in t.bolt && e != t.root.epoch
    case RollbackAndReopen(_) => forall e: nat :: e in t.eligible <==> e in t.bolt && e != t.root.epoch
    case _ => t.eligible == s.eligible
  }

  ghost predicate OpensWith(s: State, t: State, bolt: map<nat, Record>) {
    && t.bolt == bolt && t.eligible == bolt.Keys - {t.root.epoch} && t.readers == [] && t.lastPersisted == 0
    && t.files == Only(s.files, BoltFiles(bolt)) && t.nextEpoch == t.root.epoch + 1
  }

  lemma {:induction false} OpenedParts(s: State, root: IndexSnapshot, bolt: map<nat, Record>, durable: nat)
    ensures OpensWith(s, Opened(s, root, bolt, durable), bolt)
    ensures OpensWith(s, Opened(s, root, bolt, durable).(nextSegmentId := 0), bolt)
  {
    hide Only, BoltFiles, Max;
  }

  lemma {:induction false} ReopenedParts(s: State, bolt: map<nat, Record>, durable: nat)
    ensures OpensWith(s, Reopen(s, bolt, durable), bolt)
  {
    hide FirstLoadable, Ascending, Opened, OpensWith;
    match FirstLoadable(Ascending(bolt.Keys), bolt, s.files)
    case Some(snapshot) => OpenedParts(s, snapshot, bolt, durable);
    case None => OpenedParts(s, IndexSnapshot([], [], map[], 0), bolt, durable);
  }

  lemma {:induction false} BoltByStep(s: State, step: Step)
    requires Inv(s) && Enabled(s, step)
    ensures BoltAfter(s, step, Do(s, step)) && EligibleAfter(s, step, Do(s, step))
  {
    hide RootInv, IdsInv, BatchesInv, MergerInv, FlushInv, BoltInv, FileInv, AckInv;
    hide Reopen, AfterBatch, AfterMerge, AfterPersist, PrepareRecord, NewFiles, TaskFor, BatchData, WriteEpoch, Closing,
      Obsoletes, LeftInBolt, LeftEligible, Only, Needed, BoltFiles, DroppedByBatch, DroppedByMerge, Max, Ascending, Reopened,
      Excluded, ToWrite, EquivalentSegments, Skipped, MemorySegments, Purges;
    match step
    case Commit => CommittedRecord(s);
    case CommitUnnoticed => CommittedRecord(s);
    case PurgeBolt(keep) => PurgeBoltLeaves(s, keep);
    case CrashAndReopen => ReopenedParts(s, s.bolt, s.durable);
    case RollbackAndReopen(to) => ReopenedParts(s, UpToEpoch(s.bolt, to), s.upTo[to]);
    case _ =>
  }

  // ---- files ----

  predicate SomeRecordLists(bolt: map<nat, Record>, id: nat) {
    exists e :: e in bolt && ListedIn(bolt[e], id)
  }

  predicate SomeBackupNames(readers: seq<Reader>, id: nat) {
    exists i :: 0 <= i < |readers| && id in readers[i].names
  }

  /** A segment in memory that the flush writes. */
  ghost predicate Writes(f: Flush, id: nat, docs: seq<Entry>)
    requires f.Flushing?
  {
    exists i :: 0 <= i < |ToWrite(f)| && ToWrite(f)[i].id == id && ToWrite(f)[i].docs == docs && !ToWrite(f)[i].file
  }

  /** Whether a file is on disk with these documents. */
  ghost predicate OnDisk(files: map<nat, seq<Entry>>, id: nat, docs: seq<Entry>) { id in files && files[id] == docs }

  /** The same after a step: a merge writes its output, a flush the segments in memory; a purge leaves what a
      record lists, what is marked and what a backup names, and a process that starts what a record lists. */
  ghost predicate DiskAfter(s: State, step: Step, t: State, id: nat, docs: seq<Entry>) {
    match step
    case MergeFiles(inputs, _) => if id == s.nextSegmentId + 1 then docs == Segments.Merged(inputs) else OnDisk(s.files, id, docs)
    case MergeInMemory(_) =>
      s.flush.Flushing? &&
      if id == s.nextSegmentId + 1 then docs == Segments.Merged(MemorySegments(s.flush.snapshot.segments)) else OnDisk(s.files, id, docs)
    case WriteFiles(_) => s.flush.Flushing? && (OnDisk(s.files, id, docs) || Writes(s.flush, id, docs))
    case PurgeFiles =>
      OnDisk(s.files, id, docs) && (SomeRecordLists(s.bolt, id) || id in s.ineligible || SomeBackupNames(s.readers, id))
    case CrashAndReopen => OnDisk(s.files, id, docs) && SomeRecordLists(t.bolt, id)
    case RollbackAndReopen(_) => OnDisk(s.files, id, docs) && SomeRecordLists(t.bolt, id)
    case _ => OnDisk(s.files, id, docs)
  }

  lemma {:induction false} ListedIffBoltFiles(bolt: map<nat, Record>, id: nat)
    ensures SomeRecordLists(bolt, id) <==> id in BoltFiles(bolt)
  {
    forall e | e in bolt
      ensures ListedIn(bolt[e], id) <==> id in bolt[e].Files()
    {
      ListedIffFiles(bolt[e], id);
    }
    hide ListedIn;
  }

  lemma {:induction false} NamedIffScheduled(readers: seq<Reader>, id: nat)
    ensures SomeBackupNames(readers, id) <==> id in Scheduled(readers)
  {
  }

  lemma {:induction false} WritesIff(s: State, id: nat, docs: seq<Entry>)
    requires s.flush.Flushing? && Writable(s, s.flush, ToWrite(s.flush))
    ensures Writes(s.flush, id, docs) <==> id in NewFiles(ToWrite(s.flush), {}) && id in s.docsOf && docs == s.docsOf[id]
  {
    hide ToWrite, Represents, SegmentsOk;
    var segments := ToWrite(s.flush);
    if id in NewFiles(segments, {}) {
      var i :| 0 <= i < |segments| && !segments[i].file && segments[i].id == id;
      assert id in s.docsOf && s.docsOf[id] == segments[i].docs;
    }
  }

  lemma {:induction false} FilesKnown(s: State)
    requires IdsInv(s)
    ensures forall id <- s.files :: id in s.docsOf && s.files[id] == s.docsOf[id]
  {
  }

  lemma {:induction false} WrittenDisk(s: State, bytesWritten: string, id: nat, docs: seq<Entry>)
    requires IdsInv(s) && FlushInv(s) && CanWriteFiles(s)
    ensures OnDisk(DoWriteFiles(s, bytesWritten).files, id, docs) <==> OnDisk(s.files, id, docs) || Writes(s.flush, id, docs)
  {
    hide FlushInv, IdsInv, Writes, NewFiles, DoWriteFiles, ToWrite, Writable, Excluded, Extends, Reserved;
    ToWriteIsWritable(s);
    NewIdsKnown(s, s.flush, ToWrite(s.flush));
    FilesAdded(s, bytesWritten);
    WritesIff(s, id, docs);
    FilesKnown(s);
  }

  lemma {:induction false} LeftOnDisk(files: map<nat, seq<Entry>>, needed: set<nat>, id: nat, docs: seq<Entry>)
    ensures OnDisk(Only(files, needed), id, docs) <==> OnDisk(files, id, docs) && id in needed
  {
  }

  lemma {:induction false} PurgedDisk(s: State, id: nat, docs: seq<Entry>)
    ensures OnDisk(DoPurgeFiles(s).files, id, docs) <==>
              OnDisk(s.files, id, docs) && (SomeRecordLists(s.bolt, id) || id in s.ineligible || SomeBackupNames(s.readers, id))
  {
    LeftOnDisk(s.files, Needed(s), id, docs);
    ListedIffBoltFiles(s.bolt, id);
    NamedIffScheduled(s.readers, id);
    hide OnDisk, Only, BoltFiles, Scheduled, SomeRecordLists, SomeBackupNames;
  }

  lemma {:induction false} RestartedDisk(s: State, bolt: map<nat, Record>, durable: nat, id: nat, docs: seq<Entry>)
    ensures OnDisk(Reopen(s, bolt, durable).files, id, docs) <==> OnDisk(s.files, id, docs) && SomeRecordLists(bolt, id)
    ensures Reopen(s, bolt, durable).bolt == bolt
  {
    hide FirstLoadable, Reopen, Only, BoltFiles, OnDisk, SomeRecordLists;
    ReopenedParts(s, bolt, durable);
    LeftOnDisk(s.files, BoltFiles(bolt), id, docs);
    ListedIffBoltFiles(bolt, id);
  }

  /** Of every file, whether it is on disk after a step and with which documents. */
  lemma {:induction false} DiskByStep(s: State, step: Step, id: nat, docs: seq<Entry>)
    requires Inv(s) && Enabled(s, step)
    ensures DiskAfter(s, step, Do(s, step), id, docs) <==> OnDisk(Do(s, step).files, id, docs)
  {
    hide RootInv, IdsInv, BatchesInv, MergerInv, FlushInv, BoltInv, FileInv, AckInv;
    hide Reopen, AfterBatch, AfterMerge, AfterPersist, DoWriteFiles, TaskFor, BatchData, WriteEpoch, Closing, DoPurgeFiles,
      Obsoletes, LeftInBolt, LeftEligible, Only, Needed, BoltFiles, DroppedByBatch, DroppedByMerge, Max, Ascending, Reopened,
      Excluded, ToWrite, EquivalentSegments, Skipped, MemorySegments, SomeRecordLists, SomeBackupNames, Writes;
    match step
    case WriteFiles(bytesWritten) => WrittenDisk(s, bytesWritten, id, docs);
    case PurgeFiles => PurgedDisk(s, id, docs);
    case CrashAndReopen => RestartedDisk(s, s.bolt, s.durable, id, docs);
    case RollbackAndReopen(to) => RestartedDisk(s, UpToEpoch(s.bolt, to), s.upTo[to], id, docs);
    case _ =>
  }

  // ---- backups and numbers ----

  /** Open backups name every segment of the root they were opened on, and as files those that were files. */
  ghost predicate BackupsAfter(s: State, step: Step, t: State) {
    match step
    case OpenBackup =>
      && |t.readers| == |s.readers| + 1 && (forall i | 0 <= i < |s.readers| :: t.readers[i] == s.readers[i])
      && forall id: nat :: (id in t.readers[|s.readers|].names <==> Lists(s.root.segments, id))
                           && (id in t.readers[|s.readers|].files <==> ListsFile(s.root.segments, id))
    case CloseBackup(r) =>
      && r < |s.readers| == |t.readers| + 1 && (forall i | 0 <= i < r :: t.readers[i] == s.readers[i])
      && forall i | r < i < |s.readers| :: t.readers[i - 1] == s.readers[i]
    case CrashAndReopen => t.readers == []
    case RollbackAndReopen(_) => t.readers == []
    case _ => t.readers == s.readers
  }

  predicate Introduces(step: Step) {
    step.IntroduceBatch? || step.IntroduceFileMerge? || step.IntroduceMemoryMerge? || step.SwapIn?
  }

  /** Every introduction takes the next epoch; a process that starts goes on behind the epoch it opened. */
  ghost predicate EpochsAfter(s: State, step: Step, t: State) {
    if Introduces(step) then t.root.epoch == s.nextEpoch && t.nextEpoch == s.nextEpoch + 1
    else if Restarts(step) then t.nextEpoch == t.root.epoch + 1
    else t.root == s.root && t.nextEpoch == s.nextEpoch
  }

  /** Every new segment takes the next id; the epoch last persisted is that of the last commit noticed. */
  ghost predicate NumbersAfter(s: State, step: Step, t: State) {
    && (if step.Prepare? || step.MergeFiles? || step.MergeInMemory? then t.nextSegmentId == s.nextSegmentId + 1
        else !Restarts(step) ==> t.nextSegmentId == s.nextSegmentId)
    && (if step.Commit? then s.flush.Flushing? && t.lastPersisted == s.flush.snapshot.epoch
        else t.lastPersisted == if Restarts(step) then 0 else s.lastPersisted)
  }

  lemma {:induction false} BackupsByStep(s: State, step: Step)
    requires Enabled(s, step)
    ensures BackupsAfter(s, step, Do(s, step))
  {
    hide Reopen, AfterBatch, AfterMerge, AfterPersist, PrepareRecord, NewFiles, TaskFor, BatchData, WriteEpoch, Closing,
      Obsoletes, LeftInBolt, LeftEligible, Only, Needed, BoltFiles, DroppedByBatch, DroppedByMerge, Max, Ascending, Reopened,
      Excluded, ToWrite, EquivalentSegments, Skipped, MemorySegments, Lists, ListsFile, Ids, FileIds;
    match step
    case OpenBackup =>
      forall id: nat
        ensures (id in Ids(s.root.segments) <==> Lists(s.root.segments, id)) && (id in FileIds(s.root.segments) <==> ListsFile(s.root.segments, id))
      {
        ListsIffIds(s.root.segments, id);
      }
    case CrashAndReopen => ReopenedParts(s, s.bolt, s.durable);
    case RollbackAndReopen(to) => ReopenedParts(s, UpToEpoch(s.bolt, to), s.upTo[to]);
    case _ =>
  }

  lemma {:induction false} EpochsByStep(s: State, step: Step)
    requires Enabled(s, step)
    ensures EpochsAfter(s, step, Do(s, step))
  {
    hide Reopen, PrepareRecord, NewFiles, TaskFor, BatchData, WriteEpoch, Closing, SegmentsAfterBatch, SegmentsAfterMerge,
      SegmentsAfterPersist, Offsets, ApplyInternal,
      Obsoletes, LeftInBolt, LeftEligible, Only, Needed, BoltFiles, DroppedByBatch, DroppedByMerge, Max, Ascending, Reopened,
      Excluded, ToWrite, EquivalentSegments, Skipped, MemorySegments;
    match step
    case CrashAndReopen => ReopenedParts(s, s.bolt, s.durable);
    case RollbackAndReopen(to) => ReopenedParts(s, UpToEpoch(s.bolt, to), s.upTo[to]);
    case _ =>
  }

  lemma {:induction false} NumbersByStep(s: State, step: Step)
    requires Enabled(s, step)
    ensures NumbersAfter(s, step, Do(s, step))
  {
    hide Reopen, AfterBatch, AfterMerge, AfterPersist, PrepareRecord, NewFiles, TaskFor, BatchData, WriteEpoch, Closing,
      Obsoletes, LeftInBolt, LeftEligible, Only, Needed, BoltFiles, DroppedByBatch, DroppedByMerge, Max, Ascending, Reopened,
      Excluded, ToWrite, EquivalentSegments, Skipped, MemorySegments;
    match step
    case CrashAndReopen => ReopenedParts(s, s.bolt, s.durable);
    case RollbackAndReopen(to) => ReopenedParts(s, UpToEpoch(s.bolt, to), s.upTo[to]);
    case _ =>
  }

  lemma {:induction false} OpenedAbove(s: State, bolt: map<nat, Record>, durable: nat, id: nat)
    requires Openable(s, bolt, durable) && bolt != map[] && id in s.files
    ensures id < Reopen(s, bolt, durable).nextSegmentId
  {
    hide Openable, Loadable, FirstLoadable, SegmentsIn, Only, BoltFiles, Offsets;
    NewestLoads(s, bolt, durable);
  }

  /** Ids given out after opening an index are above every file that was on disk. */
  lemma {:induction false} NumbersAfterRestart(s: State, step: Step, id: nat)
    requires Inv(s) && Enabled(s, step) && Restarts(step) && s.bolt != map[] && id in s.files
    ensures id < Do(s, step).nextSegmentId
  {
    hide Inv, Openable, UpToEpoch, Reopen, Max;
    match step
    case CrashAndReopen =>
      CrashOpens(s);
      OpenedAbove(s, s.bolt, s.durable, id);
    case RollbackAndReopen(to) =>
      RollbackOpens(s, to);
      OpenedAbove(s, UpToEpoch(s.bolt, to), s.upTo[to], id);
    case _ =>
  }

  // ---- swapping in ----

  /** Segments keep id, documents and deletes; files are now also those that were written. */
  ghost predicate SwappedIn(before: seq<SegmentSnapshot>, added: set<nat>, after: seq<SegmentSnapshot>) {
    && |after| == |before|
    && forall i | 0 <= i < |after| ::
         && after[i].id == before[i].id && after[i].docs == before[i].docs && after[i].deleted == before[i].deleted
         && (after[i].file <==> before[i].file || before[i].id in added)
  }

  lemma {:induction false} AddedOnDisk(s: State)
    requires FlushInv(s) && s.flush.Flushing? && s.flush.phase.Written?
    ensures s.flush.phase.added <= s.files.Keys
  {
    hide SnapshotOk, Represents, SegmentsOk;
    var record := s.flush.phase.record;
    assert record.Files() <= s.files.Keys;
  }

  lemma {:induction false} SwapInByStep(s: State)
    requires Inv(s) && s.flush.Flushing? && s.flush.phase.Written?
    ensures SwappedIn(s.root.segments, s.flush.phase.added, DoSwapIn(s).root.segments)
  {
    hide BatchesInv, MergerInv, FlushInv, BoltInv, FileInv, AckInv, Represents, SegmentsOk, Offsets;
    AddedOnDisk(s);
  }

  // ---- batches ----

  /** Preparing adds a batch under the new id, with its documents and with what it asked for; introducing
      takes it out; a process that starts has none. */
  ghost predicate BatchesAfter(s: State, step: Step, t: State) {
    match step
    case Prepare(batch, data, safe, callback) =>
      var id := s.nextSegmentId + 1;
      && (forall i: nat :: i in t.batches <==> i in s.batches || i == id)
      && (forall i: nat | i in s.batches && i != id :: i in t.batches && t.batches[i] == s.batches[i])
      && id in t.batches && t.batches[id].batch == batch && t.batches[id].safe == safe && t.batches[id].callback == callback
      && t.batches[id].next.id == id && t.batches[id].next.data == data && t.batches[id].next.internal == batch.internalOps
      && forall doc :: doc in t.batches[id].next.ids <==> doc in batch.ops
    case IntroduceBatch(id) =>
      && (forall i: nat :: i in t.batches <==> i in s.batches && i != id)
      && forall i: nat | i in t.batches && i in s.batches :: t.batches[i] == s.batches[i]
    case CrashAndReopen => t.batches == map[]
    case RollbackAndReopen(_) => t.batches == map[]
    case _ => t.batches == s.batches
  }

  /** Who waits: a batch from its introduction on, under its number, until the next capture. */
  ghost predicate WaitingAfter(s: State, step: Step, t: State) {
    match step
    case IntroduceBatch(id) =>
      && id in s.batches
      && t.pendingAcks == s.pendingAcks + (if s.batches[id].safe then [|s.log| + 1] else [])
      && t.pendingCalls == s.pendingCalls + (if s.batches[id].callback then [|s.log| + 1] else [])
    case Capture => t.pendingAcks == t.pendingCalls == []
    case CrashAndReopen => t.pendingAcks == t.pendingCalls == []
    case RollbackAndReopen(_) => t.pendingAcks == t.pendingCalls == []
    case _ => t.pendingAcks == s.pendingAcks && t.pendingCalls == s.pendingCalls
  }

  lemma {:induction false} NobodyWaits(s: State, bolt: map<nat, Record>, durable: nat)
    ensures
      var t := Reopen(s, bolt, durable);
      t.batches == map[] && t.pendingAcks == t.pendingCalls == [] && t.merger == NotMerging && t.flush == Idle
  {
    hide FirstLoadable, Only, BoltFiles, Max, Ascending;
  }

  lemma {:induction false} PreparedBatch(s: State, batch: Batch, data: seq<Entry>, safe: bool, callback: bool)
    ensures BatchesAfter(s, Prepare(batch, data, safe, callback), DoPrepare(s, batch, data, safe, callback))
  {
    hide Obsoletes;
  }

  lemma {:induction false} BatchesByStep(s: State, step: Step)
    requires Enabled(s, step)
    ensures BatchesAfter(s, step, Do(s, step)) && WaitingAfter(s, step, Do(s, step))
  {
    hide Reopen, AfterBatch, AfterMerge, AfterPersist, PrepareRecord, NewFiles, TaskFor, BatchData, WriteEpoch, Closing, Obsoletes,
      LeftInBolt, LeftEligible, Only, Needed, BoltFiles, DroppedByBatch, DroppedByMerge, Reopened, Excluded, ToWrite,
      EquivalentSegments, Skipped, UpToEpoch, MemorySegments;
    match step
    case Prepare(batch, data, safe, callback) => PreparedBatch(s, batch, data, safe, callback);
    case CrashAndReopen => NobodyWaits(s, s.bolt, s.durable);
    case RollbackAndReopen(to) => NobodyWaits(s, UpToEpoch(s.bolt, to), s.upTo[to]);
    case _ =>
  }

  // ---- the two goroutines ----

  /** The merger: a round works on the root at its start and remembers the inputs that were merged away. */
  ghost predicate MergerAfter(s: State, step: Step, t: State) {
    match step
    case PlanMerges => t.merger == Planned(s.root.segments, {})
    case MergeFiles(inputs, task) =>
      s.merger.Planned? && t.merger == Merging.Merged(s.merger.snapshot, s.merger.done, inputs, s.nextSegmentId + 1, task)
    case IntroduceFileMerge =>
      && s.merger.Merged? && t.merger.Planned? && t.merger.snapshot == s.merger.snapshot
      && forall id: nat :: id in t.merger.done <==> id in s.merger.done || Lists(s.merger.inputs, id)
    case FinishMerges => t.merger == NotMerging
    case FailMerge => t.merger == NotMerging
    case CrashAndReopen => t.merger == NotMerging
    case RollbackAndReopen(_) => t.merger == NotMerging
    case _ => t.merger == s.merger
  }

  lemma {:induction false} DoneIsListed(s: State)
    requires s.merger.Merged? && |s.merger.task.news| == |s.merger.task.ids|
    ensures MergerAfter(s, IntroduceFileMerge, DoIntroduceFileMerge(s))
  {
    MergeSteps.FileMergeDone(s);
    hide Lists, DoIntroduceFileMerge, Ids;
    forall id: nat
      ensures id in Ids(s.merger.inputs) <==> Lists(s.merger.inputs, id)
    {
      ListsIffIds(s.merger.inputs, id);
    }
  }

  lemma {:induction false} MergerByStep(s: State, step: Step)
    requires Enabled(s, step)
    ensures MergerAfter(s, step, Do(s, step))
  {
    hide Reopen, AfterBatch, AfterMerge, AfterPersist, PrepareRecord, NewFiles, TaskFor, BatchData, WriteEpoch, Closing, Obsoletes,
      LeftInBolt, LeftEligible, Only, Needed, BoltFiles, DroppedByBatch, DroppedByMerge, Reopened, Excluded, ToWrite,
      EquivalentSegments, Skipped, UpToEpoch, MemorySegments, Lists;
    match step
    case IntroduceFileMerge => DoneIsListed(s);
    case CrashAndReopen => NobodyWaits(s, s.bolt, s.durable);
    case RollbackAndReopen(to) => NobodyWaits(s, UpToEpoch(s.bolt, to), s.upTo[to]);
    case _ =>
  }

  /** The persister: a flush takes the root, the number of batches in it and everybody who waits, and keeps
      them until it ends; only the phase goes on. */
  ghost predicate FlushAfter(s: State, step: Step, t: State) {
    match step
    case Capture => t.flush == Flushing(s.root, |s.log|, s.pendingAcks, s.pendingCalls, Captured(true))
    case MergeInMemory(task) => SameFlush(s.flush, t.flush) && t.flush.phase == MergedInMemory(s.nextSegmentId + 1, task)
    case IntroduceMemoryMerge =>
      && SameFlush(s.flush, t.flush) && s.flush.phase.MergedInMemory?
      && if Lists(t.root.segments, s.flush.phase.out) then t.flush.phase.Equivalent? else t.flush.phase == Captured(false)
    case WriteFiles(_) => SameFlush(s.flush, t.flush) && t.flush.phase.Written?
    case SwapIn =>
      && SameFlush(s.flush, t.flush) && s.flush.phase.Written?
      && t.flush.phase == Swapped(s.flush.phase.record, s.flush.phase.added)
    case Commit => t.flush == Idle
    case CommitUnnoticed => t.flush == Idle
    case FailFlush => t.flush == Idle
    case CrashAndReopen => t.flush == Idle
    case RollbackAndReopen(_) => t.flush == Idle
    case _ => t.flush == s.flush
  }

  ghost predicate SameFlush(f: Flush, g: Flush) {
    f.Flushing? && g.Flushing? && g.snapshot == f.snapshot && g.upTo == f.upTo && g.acks == f.acks && g.calls == f.calls
  }

  lemma {:induction false} MemoryMergeFlushed(s: State)
    requires IdsInv(s) && FlushInv(s) && s.flush.Flushing? && s.flush.phase.MergedInMemory?
    requires |s.flush.phase.task.news| == |s.flush.phase.task.ids|
    ensures FlushAfter(s, IntroduceMemoryMerge, DoIntroduceMemoryMerge(s))
  {
    var p := s.flush.phase;
    assert p.out in Reserved(s);
    hide IdsInv, Reserved, SnapshotOk, DroppedByMerge, Skipped, Lists, SegmentsAfterMerge, BuiltFrom, EquivalentSegments, MemorySegments;
    IntroducedIffListed(s.root.segments, p.task, p.out);
  }

  lemma {:induction false} FlushByStep(s: State, step: Step)
    requires Inv(s) && Enabled(s, step)
    ensures FlushAfter(s, step, Do(s, step))
  {
    hide RootInv, IdsInv, BatchesInv, MergerInv, FlushInv, BoltInv, FileInv, AckInv;
    hide Reopen, AfterBatch, AfterMerge, AfterPersist, PrepareRecord, NewFiles, TaskFor, BatchData, WriteEpoch, Closing, Obsoletes,
      LeftInBolt, LeftEligible, Only, Needed, BoltFiles, DroppedByBatch, DroppedByMerge, Reopened, Excluded, ToWrite,
      EquivalentSegments, Skipped, UpToEpoch, MemorySegments, Lists;
    match step
    case IntroduceMemoryMerge => MemoryMergeFlushed(s);
    case CrashAndReopen => NobodyWaits(s, s.bolt, s.durable);
    case RollbackAndReopen(to) => NobodyWaits(s, UpToEpoch(s.bolt, to), s.upTo[to]);
    case _ =>
  }
}
