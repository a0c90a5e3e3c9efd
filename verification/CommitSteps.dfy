/** Writing files, swapping them into the root, committing and failing keep the invariant. */
module CommitSteps {
  import opened Segments
  import opened Snapshots
  import opened IndexSpec
  import opened Store
  import opened Protocol
  import opened ProtocolInvariant
  import opened RootSteps
  import opened MergeSteps
  import opened FlushSteps

  // ---- writing files ----

  lemma {:induction false} ExclusionOfFiles(segments: seq<SegmentSnapshot>, exclude: set<nat>)
    requires forall i | 0 <= i < |segments| :: segments[i].file
    ensures RecordSegments(segments, exclude) == RecordSegments(segments, {})
    ensures NewFiles(segments, exclude) == {}
  {
    if segments != [] {
      ExclusionOfFiles(segments[..|segments| - 1], exclude);
    }
  }

  lemma {:induction false} MemoryGetsFiles(segments: seq<SegmentSnapshot>)
    ensures MemorySegments(segments) == [] || NewFiles(segments, {}) != {}
  {
    if segments != [] {
      var n := |segments| - 1;
      MemoryGetsFiles(segments[..n]);
      if !segments[n].file {
        assert segments[n].id in NewFiles(segments, {});
      } else if id :| id in NewFiles(segments[..n], {}) {
        var i :| 0 <= i < n && !segments[..n][i].file && segments[..n][i].id == id;
        assert segments[i].id in NewFiles(segments, {});
      }
    }
  }

  /** What is written: right segments, all of them with their ids known. */
  ghost predicate Writable(s: State, f: Flush, segments: seq<SegmentSnapshot>)
    requires f.Flushing?
  {
    && SegmentsOk(segments) && Bound(segments, s.docsOf) && Ids(segments) !! Reserved(s)
    && f.upTo <= |s.log| && Represents(segments, f.snapshot.internal, Replay(s.log[..f.upTo]))
    && FileIds(segments) <= s.files.Keys && FileIds(f.snapshot.segments) <= Ids(segments)
  }

  lemma {:induction false} ToWriteIsWritable(s: State)
    requires FlushInv(s) && CanWriteFiles(s)
    ensures Writable(s, s.flush, ToWrite(s.flush))
    ensures RecordSegments(ToWrite(s.flush), Excluded(s.flush)) == RecordSegments(ToWrite(s.flush), {})
    ensures NewFiles(ToWrite(s.flush), Excluded(s.flush)) == NewFiles(ToWrite(s.flush), {})
  {
    var segments := ToWrite(s.flush);
    assert FileIds(segments) <= Ids(segments) && FileIds(s.flush.snapshot.segments) <= Ids(s.flush.snapshot.segments);
    if s.flush.phase.Equivalent? {
      ExclusionOfFiles(segments, Excluded(s.flush));
      ExclusionOfFiles(segments, {});
    }
  }

  lemma {:induction false} WriteFilesExtends(s: State, bytesWritten: string)
    requires IdsInv(s) && FlushInv(s) && CanWriteFiles(s)
    ensures Extends(s, DoWriteFiles(s, bytesWritten)) && IdsInv(DoWriteFiles(s, bytesWritten))
    ensures Reserved(DoWriteFiles(s, bytesWritten)) == Reserved(s)
    ensures FilesHold(ToWrite(s.flush), DoWriteFiles(s, bytesWritten).files)
  {
    ToWriteIsWritable(s);
    hide FlushInv, Excluded, ToWrite, Writable, DoWriteFiles, IdsInv, Extends, Reserved, FilesHold;
    NewIdsKnown(s, s.flush, ToWrite(s.flush));
    FilesAdded(s, bytesWritten);
    SegmentsOnDisk(s, s.flush, ToWrite(s.flush), DoWriteFiles(s, bytesWritten).files);
  }

  lemma {:induction false} NewIdsKnown(s: State, f: Flush, segments: seq<SegmentSnapshot>)
    requires f.Flushing? && Writable(s, f, segments)
    ensures NewFiles(segments, {}) <= s.docsOf.Keys
  {
    hide Represents, SegmentsOk;
    forall id | id in NewFiles(segments, {})
      ensures id in s.docsOf
    {
      var i :| 0 <= i < |segments| && segments[i].id == id;
    }
  }

  /** The files after writing: those before, and the new ones with the documents of their ids. */
  ghost predicate FilesWithNew(s: State, files: map<nat, seq<Entry>>, added: set<nat>) {
    && files.Keys == s.files.Keys + added
    && forall id <- files :: files[id] == if id in added && id in s.docsOf then s.docsOf[id] else if id in s.files then s.files[id] else []
  }

  lemma {:induction false} FilesAdded(s: State, bytesWritten: string)
    requires IdsInv(s) && CanWriteFiles(s) && NewFiles(ToWrite(s.flush), {}) <= s.docsOf.Keys
    requires NewFiles(ToWrite(s.flush), Excluded(s.flush)) == NewFiles(ToWrite(s.flush), {})
    ensures
      var t := DoWriteFiles(s, bytesWritten);
      Extends(s, t) && IdsInv(t) && Reserved(t) == Reserved(s) && FilesWithNew(s, t.files, NewFiles(ToWrite(s.flush), {}))
  {
    hide NewFiles, PrepareRecord, Excluded, ToWrite;
    assert FlushOut(DoWriteFiles(s, bytesWritten).flush) == {} == FlushOut(s.flush);
  }

  lemma {:induction false} SegmentsOnDisk(s: State, f: Flush, segments: seq<SegmentSnapshot>, files: map<nat, seq<Entry>>)
    requires f.Flushing? && Writable(s, f, segments) && IdsInv(s) && FilesWithNew(s, files, NewFiles(segments, {}))
    ensures FilesHold(segments, files)
  {
    hide Represents, SegmentsOk, Reserved;
    forall i | 0 <= i < |segments|
      ensures segments[i].id in files && files[segments[i].id] == segments[i].docs
    {
      assert segments[i].id in s.docsOf;
      assert segments[i].file ==> segments[i].id in FileIds(segments);
      assert !segments[i].file ==> segments[i].id in NewFiles(segments, {});
    }
  }

  lemma {:induction false} WrittenRepresents(segments: seq<SegmentSnapshot>, record: Record, files: map<nat, seq<Entry>>,
                                             internal: map<string, string>, index: Index)
    requires SegmentsOk(segments) && record.segments == RecordSegments(segments, {}) && FilesHold(segments, files)
    requires Represents(segments, internal, index) && SameInternal(record.internal, internal)
    ensures Loadable(record, files) && SegmentsOk(SegmentsIn(record, files))
    ensures Represents(SegmentsIn(record, files), record.internal, index)
  {
    forall e
      ensures Loadable(record, files) && SegmentsOk(SegmentsIn(record, files))
      ensures Occurrences(Contents(SegmentsIn(record, files)), e) == Listed(index.docs, e)
    {
      WriteThenLoad(segments, record, files, e);
    }
    var any := Entry("", "");
    WriteThenLoad(segments, record, files, any);
  }

  lemma {:induction false} StatisticKept(internal: map<string, string>, value: string)
    ensures SameInternal(internal[TOT_BYTES_WRITTEN := value], internal)
  {
  }

  lemma {:induction false} WriteFilesReady(s: State, bytesWritten: string)
    requires IdsInv(s) && FlushInv(s) && CanWriteFiles(s)
    ensures
      var t := DoWriteFiles(s, bytesWritten);
      ReadyToCommit(t, t.flush, t.flush.phase.record, t.flush.phase.added)
  {
    var segments, f := ToWrite(s.flush), s.flush;
    var t := DoWriteFiles(s, bytesWritten);
    var record := t.flush.phase.record;
    WriteEpochs(s, bytesWritten);
    ToWriteIsWritable(s);
    WriteFilesExtends(s, bytesWritten);
    hide *;
    StatisticKept(f.snapshot.internal, bytesWritten);
    WriteRecord(s, bytesWritten);
    WrittenIsLoadable(segments, record, t.files);
    WrittenRepresents(segments, record, t.files, f.snapshot.internal, Replay(s.log[..f.upTo]));
    MakeReady(t, bytesWritten, segments, record, t.flush.phase.added);
  }

  lemma {:induction false} WriteRecord(s: State, bytesWritten: string)
    requires FlushInv(s) && CanWriteFiles(s)
    ensures
      var f, t := s.flush, DoWriteFiles(s, bytesWritten);
      && t.flush.Flushing? && t.flush.phase.Written? && t.flush.snapshot == f.snapshot && t.flush.upTo == f.upTo
      && t.flush.phase.record == Record(RecordSegments(ToWrite(f), {}), f.snapshot.internal[TOT_BYTES_WRITTEN := bytesWritten])
      && t.flush.phase.added == NewFiles(ToWrite(f), {})
      && Writable(s, f, ToWrite(f))
      && SegmentsOk(ToWrite(f)) && Represents(ToWrite(f), f.snapshot.internal, Replay(s.log[..f.upTo]))
      && f.upTo <= |s.log| && t.log == s.log && t.root == s.root && t.bolt == s.bolt
      && Ids(ToWrite(f)) !! Reserved(s) && FileIds(f.snapshot.segments) <= Ids(ToWrite(f))
  {
    ToWriteIsWritable(s);
  }

  lemma {:induction false} WriteEpochs(s: State, bytesWritten: string)
    requires FlushInv(s) && CanWriteFiles(s)
    ensures
      var f := s.flush;
      (f.snapshot.epoch == s.root.epoch || f.snapshot.epoch in s.bolt) ==> ToWrite(f) == f.snapshot.segments
  {
  }

  lemma {:induction false} MakeReady(t: State, bytesWritten: string, segments: seq<SegmentSnapshot>, record: Record, added: set<nat>)
    requires t.flush.Flushing? && t.flush.upTo <= |t.log|
    requires Loadable(record, t.files) && SegmentsOk(SegmentsIn(record, t.files))
    requires Represents(SegmentsIn(record, t.files), record.internal, Replay(t.log[..t.flush.upTo]))
    requires record == Record(RecordSegments(segments, {}), t.flush.snapshot.internal[TOT_BYTES_WRITTEN := bytesWritten])
    requires record.Files() == Ids(segments) && Ids(segments) !! Reserved(t)
    requires FileIds(t.flush.snapshot.segments) <= Ids(segments) && added == NewFiles(segments, {})
    requires (t.flush.snapshot.epoch == t.root.epoch || t.flush.snapshot.epoch in t.bolt) ==> segments == t.flush.snapshot.segments
    ensures ReadyToCommit(t, t.flush, record, added)
  {
    hide Loadable, Represents, SegmentsOk, SegmentsIn, Replay, RecordSegments, MemorySegments, Reserved;
    assert added <= Ids(segments);
    if added == {} && t.flush.snapshot.epoch == t.root.epoch {
      MemoryGetsFiles(segments);
    }
  }

  lemma {:induction false} WriteFilesSnapshot(s: State, bytesWritten: string)
    requires RootInv(s) && IdsInv(s) && FlushInv(s) && CanWriteFiles(s)
    requires Extends(s, DoWriteFiles(s, bytesWritten)) && Reserved(DoWriteFiles(s, bytesWritten)) == Reserved(s)
    ensures SnapshotOk(DoWriteFiles(s, bytesWritten), DoWriteFiles(s, bytesWritten).flush)
  {
    EvolvesHere(s);
    KeepEarlier(s, DoWriteFiles(s, bytesWritten), s.flush.snapshot.segments, {});
  }

  lemma {:induction false} WriteFilesKeepsInv(s: State, bytesWritten: string)
    requires Inv(s) && CanWriteFiles(s)
    ensures Inv(DoWriteFiles(s, bytesWritten))
  {
    hide RootInv, IdsInv, BatchesInv, MergerInv, BoltInv, FileInv, AckInv, Extends, Reserved, SnapshotOk, ReadyToCommit, StandIn, Excluded, ToWrite;
    var t := DoWriteFiles(s, bytesWritten);
    WriteFilesExtends(s, bytesWritten);
    WriteFilesReady(s, bytesWritten);
    WriteFilesSnapshot(s, bytesWritten);
    EvolvesHere(s);
    KeepRoot(s, t);
    KeepBatches(s, t);
    KeepMerger(s, t, {});
    KeepBolt(s, t);
    KeepFilesAtRoot(s, t);
    AcksSamePlace(s, t);
  }

  // ---- swapping the reopened files in ----

  lemma {:induction false} SwapInFaithful(s: State)
    requires RootInv(s) && IdsInv(s) && s.flush.Flushing? && s.flush.phase.Written?
    ensures FaithfulPersist(s.root.segments, Reopened(s, s.flush.phase.added))
  {
    forall i | 0 <= i < |s.root.segments|
      ensures s.root.segments[i].id in s.docsOf
    {
    }
  }

  lemma {:induction false} SwappedShape(s: State, persisted: map<nat, seq<Entry>>)
    requires RootInv(s) && FaithfulPersist(s.root.segments, persisted)
    ensures
      var after := SegmentsAfterPersist(s.root.segments, persisted);
      && Bound(after, s.docsOf) && FileIds(after) <= FileIds(s.root.segments) + persisted.Keys
      && Represents(after, s.root.internal, Replay(s.log))
      && s.root.offsets == Offsets(after)
  {
    PersistContents(s.root.segments, persisted);
    PersistRefines(s.root, persisted, Replay(s.log));
  }

  lemma {:induction false} SwapInReserved(s: State)
    requires s.flush.Flushing? && s.flush.phase.Written?
    ensures Reserved(DoSwapIn(s)) == Reserved(s)
  {
    hide AfterPersist, Reopened;
  }

  lemma {:induction false} SwapInRoot(s: State)
    requires RootInv(s) && IdsInv(s) && FlushInv(s) && s.flush.Flushing? && s.flush.phase.Written?
    ensures RootInv(DoSwapIn(s)) && IdsInv(DoSwapIn(s)) && Extends(s, DoSwapIn(s)) && Reserved(DoSwapIn(s)) == Reserved(s)
    ensures Evolves(s.root.segments, DoSwapIn(s).root.segments, {})
    ensures Ids(DoSwapIn(s).root.segments) == Ids(s.root.segments)
    ensures FileIds(DoSwapIn(s).root.segments) <= FileIds(s.root.segments) + s.flush.phase.added
    ensures s.flush.phase.added <= s.files.Keys
    ensures DoSwapIn(s).root.epoch == s.nextEpoch > s.root.epoch
  {
    hide Represents, Evolves, SegmentsOk, Bound, FaithfulPersist, SnapshotOk, Loadable;
    var persisted := Reopened(s, s.flush.phase.added);
    SwapInReserved(s);
    hide Reserved;
    SwapInFaithful(s);
    PersistEvolves(s.root.segments, persisted);
    SwappedShape(s, persisted);
    RecordFilesAre(s, s.flush.phase.record, s.flush.upTo);
  }

  lemma {:induction false} SwapInFlush(s: State)
    requires RootInv(s) && IdsInv(s) && FlushInv(s) && s.flush.Flushing? && s.flush.phase.Written?
    ensures FlushInv(DoSwapIn(s))
  {
    hide RootInv, IdsInv, RecordOk, AfterPersist, Extends, Reserved;
    var t := DoSwapIn(s);
    SwapInRoot(s);
    KeepEarlier(s, t, s.flush.snapshot.segments, {});
    KeepReady(s, t, s.flush, s.flush.phase.record, s.flush.phase.added);
  }

  lemma {:induction false} SwapInKeepsInv(s: State)
    requires Inv(s) && s.flush.Flushing? && s.flush.phase.Written?
    ensures Inv(DoSwapIn(s))
  {
    hide RootInv, IdsInv, BatchesInv, MergerInv, FlushInv, BoltInv, FileInv, AckInv, AfterPersist, Extends, Reserved;
    var t := DoSwapIn(s);
    SwapInRoot(s);
    SwapInFlush(s);
    KeepBatches(s, t);
    KeepMerger(s, t, {});
    NewRootInBolt(s);
    KeepBolt(s, t);
    SwapInFiles(s, t);
    AcksSamePlace(s, t);
  }

  lemma {:induction false} SwapInFiles(s: State, t: State)
    requires FileInv(s) && t.files == s.files && t.ineligible == s.ineligible && t.bolt == s.bolt && t.orphans == s.orphans && t.readers == s.readers
    requires s.flush.Flushing? && s.flush.phase.Written? && SwappedFiles(t.flush) == s.flush.phase.added <= s.files.Keys
    requires FileIds(t.root.segments) <= FileIds(s.root.segments) + s.flush.phase.added
    ensures FileInv(t)
  {
  }

  // ---- committing ----

  lemma {:induction false} WriteSame(was: Record, now: Record)
    requires was.segments == now.segments && was.internal.Keys <= now.internal.Keys
    ensures WriteOver(was, now) == now
  {
    assert was.internal + now.internal == now.internal;
    assert WriteOver(was, now).segments == now.segments;
  }

  /** The record of a flush that may commit. */
  lemma {:induction false} CommitReady(s: State)
    requires FlushInv(s) && CanCommit(s)
    ensures s.flush.phase.Written? || s.flush.phase.Swapped?
    ensures ReadyToCommit(s, s.flush, s.flush.phase.record, s.flush.phase.added)
    ensures SwappedFiles(s.flush) <= s.flush.phase.added
    ensures s.flush.snapshot.epoch == s.root.epoch ==> s.flush.phase.added == {}
  {
  }

  lemma {:induction false} SameSegments(s: State)
    requires FlushInv(s) && CanCommit(s)
    ensures s.flush.Flushing? && (s.flush.phase.Written? || s.flush.phase.Swapped?)
    ensures
      var f := s.flush;
      f.snapshot.epoch in s.bolt ==>
        && s.bolt[f.snapshot.epoch].segments == f.phase.record.segments
        && s.bolt[f.snapshot.epoch].internal.Keys <= f.phase.record.internal.Keys
  {
    hide RecordOk, Earlier, Represents, Bound, RecordSegments, MemorySegments;
    CommitReady(s);
    assert SnapshotOk(s, s.flush);
  }

  /** Committing an epoch again, after an attempt whose success was not noticed or after opening
      an index at it, gives the bucket the same segments. */
  lemma {:induction false} CommittedRecord(s: State)
    requires FlushInv(s) && CanCommit(s)
    ensures WriteEpoch(s.bolt, s.flush.snapshot.epoch, s.flush.phase.record)
         == s.bolt[s.flush.snapshot.epoch := s.flush.phase.record]
  {
    SameSegments(s);
    hide FlushInv, WriteOver, CanCommit;
    if s.flush.snapshot.epoch in s.bolt {
      WriteSame(s.bolt[s.flush.snapshot.epoch], s.flush.phase.record);
    }
  }

  lemma {:induction false} NewestIsNew(bolt: map<nat, Record>, epoch: nat, record: Record)
    requires forall e <- bolt :: e <= epoch
    ensures epoch in bolt[epoch := record].Keys
    ensures Max(bolt[epoch := record].Keys) == epoch
    ensures NewestFiles(bolt[epoch := record]) == record.Files()
  {
    assert IsMax(bolt[epoch := record].Keys, epoch);
  }

  lemma {:induction false} CommitBolt(s: State)
    requires FlushInv(s) && BoltInv(s) && CanCommit(s)
    ensures BoltInv(DoCommit(s))
  {
    hide RecordOk, AlreadyWritten, Earlier, Represents, Bound;
    var f, t := s.flush, DoCommit(s);
    CommitReady(s);
    CommittedRecord(s);
    NewestIsNew(s.bolt, f.snapshot.epoch, f.phase.record);
    AddRecord(s, t, f.snapshot.epoch, f.phase.record, f.upTo);
    CommittedHere(s);
    forall e, g | e in t.bolt && g in t.bolt && e <= g
      ensures t.upTo[e] <= t.upTo[g]
    {
      if e != f.snapshot.epoch {
        assert e in s.bolt && s.upTo[e] <= s.upTo[Max(s.bolt.Keys)];
      }
    }
  }

  lemma {:induction false} AddRecord(s: State, t: State, epoch: nat, record: Record, n: nat)
    requires RecordsOk(s) && RecordOk(s, record, n) && t.files == s.files && t.log == s.log
    requires t.bolt == s.bolt[epoch := record] && t.upTo == s.upTo[epoch := n]
    ensures RecordsOk(t)
  {
    hide Loadable, Represents, SegmentsOk;
    forall e | e in t.bolt
      ensures RecordOk(t, t.bolt[e], t.upTo[e])
    {
      RecordIn(s, record, n);
      if e != epoch {
        RecordIn(s, s.bolt[e], s.upTo[e]);
      }
      RecordFrame(s, t, t.bolt[e], t.upTo[e]);
    }
  }

  lemma {:induction false} CommittedHere(s: State)
    requires FlushInv(s) && BoltInv(s) && CanCommit(s)
    ensures AlreadyWritten(DoCommit(s).bolt, s.root)
  {
    hide Earlier, Represents, Bound, RecordOk;
    CommitReady(s);
    CommittedRecord(s);
  }

  lemma {:induction false} CommitFiles(s: State)
    requires FlushInv(s) && FileInv(s) && CanCommit(s)
    ensures FileInv(DoCommit(s))
  {
    hide Earlier, Represents, Bound, RecordOk, AlreadyWritten;
    CommitReady(s);
    CommittedRecord(s);
    NewestIsNew(s.bolt, s.flush.snapshot.epoch, s.flush.phase.record);
  }

  lemma {:induction false} BatchesClosing(closed: seq<Ack>, acks: seq<nat>, ok: bool)
    ensures Batches(closed + Closing(acks, ok)) == Batches(closed) + acks
  {
  }

  lemma {:induction false} CommitAcks(s: State)
    requires AckInv(s) && FlushInv(s) && CanCommit(s)
    ensures AckInv(DoCommit(s))
  {
    hide Earlier, Represents, Bound, PhaseOk, AlreadyWritten;
    var f, t := s.flush, DoCommit(s);
    BatchesClosing(s.closed, f.acks, true);
    assert s.closed + Closing(f.acks, true) == t.closed;
    assert Batches(t.closed) + TakenAcks(t.flush) + t.pendingAcks == Batches(s.closed) + TakenAcks(s.flush) + s.pendingAcks;
    assert t.fired + t.carried + TakenCalls(t.flush) + t.pendingCalls == s.fired + s.carried + TakenCalls(s.flush) + s.pendingCalls;
    forall i | 0 <= i < |t.closed| && t.closed[i].ok
      ensures t.closed[i].batch <= t.durable
    {
      assert i >= |s.closed| ==> t.closed[i] == Ack(f.acks[i - |s.closed|], true);
    }
    assert AllIn(Batches(t.closed), 0, |s.log|);
    assert AllIn(t.fired, 0, f.upTo);
  }

  lemma {:induction false} CommitMerger(s: State)
    requires RootInv(s) && IdsInv(s) && MergerInv(s) && FlushInv(s) && CanCommit(s)
    ensures MergerInv(DoCommit(s)) && RootInv(DoCommit(s)) && IdsInv(DoCommit(s))
  {
    hide SnapshotOk, RecordOk, Earlier, OutOk, Represents, Bound;
    CommitReady(s);
    EvolvesHere(s);
    KeepMerger(s, DoCommit(s), {});
  }

  lemma {:induction false} CommitKeepsInv(s: State)
    requires Inv(s) && CanCommit(s)
    ensures Inv(DoCommit(s))
  {
    hide RootInv, IdsInv, MergerInv, BoltInv, FileInv, AckInv, SnapshotOk, PhaseOk;
    CommitMerger(s);
    CommitBolt(s);
    CommitFiles(s);
    CommitAcks(s);
    KeepBatches(s, DoCommit(s));
  }

  // ---- a commit that is reported as failed ----

  /** Bolt, the root and the files are those after a commit. */
  lemma {:induction false} UnnoticedBolt(s: State)
    requires FlushInv(s) && BoltInv(s) && CanCommit(s)
    ensures BoltInv(DoCommitUnnoticed(s))
  {
    CommitBolt(s);
    var c, t := DoCommit(s), DoCommitUnnoticed(s);
    hide RecordOk, AlreadyWritten, DoCommit, DoCommitUnnoticed;
    SameBoltSide(s);
    forall e | e in t.bolt
      ensures RecordOk(t, t.bolt[e], t.upTo[e])
    {
      SameRecordIn(c, t, c.bolt[e], c.upTo[e]);
    }
  }

  lemma {:induction false} SameBoltSide(s: State)
    requires CanCommit(s)
    ensures
      var c, t := DoCommit(s), DoCommitUnnoticed(s);
      t.bolt == c.bolt && t.upTo == c.upTo && t.durable == c.durable && t.root == c.root && t.files == c.files && t.log == c.log
  {
    hide WriteEpoch;
  }

  lemma {:induction false} SameRecordIn(s: State, t: State, record: Record, n: nat)
    requires RecordOk(s, record, n) && t.files == s.files && t.log == s.log
    ensures RecordOk(t, record, n)
  {
    hide Loadable, Represents, SegmentsOk;
  }

  lemma {:induction false} UnnoticedFiles(s: State)
    requires FlushInv(s) && FileInv(s) && CanCommit(s)
    ensures FileInv(DoCommitUnnoticed(s))
  {
    hide Earlier, Represents, Bound, RecordOk, AlreadyWritten;
    CommitReady(s);
    CommittedRecord(s);
    NewestIsNew(s.bolt, s.flush.snapshot.epoch, s.flush.phase.record);
  }

  lemma {:induction false} UnnoticedAcks(s: State)
    requires AckInv(s) && FlushInv(s) && CanCommit(s)
    ensures AckInv(DoCommitUnnoticed(s))
  {
    hide Earlier, Represents, Bound, PhaseOk, AlreadyWritten, WriteEpoch;
    var f, t := s.flush, DoCommitUnnoticed(s);
    BatchesClosing(s.closed, f.acks, false);
    assert s.closed + Closing(f.acks, false) == t.closed;
    assert Batches(t.closed) + TakenAcks(t.flush) + t.pendingAcks == Batches(s.closed) + TakenAcks(s.flush) + s.pendingAcks;
    assert t.fired + t.carried + TakenCalls(t.flush) + t.pendingCalls == s.fired + s.carried + TakenCalls(s.flush) + s.pendingCalls;
  }

  lemma {:induction false} UnnoticedMerger(s: State)
    requires RootInv(s) && IdsInv(s) && MergerInv(s) && CanCommit(s)
    ensures MergerInv(DoCommitUnnoticed(s)) && RootInv(DoCommitUnnoticed(s)) && IdsInv(DoCommitUnnoticed(s))
  {
    hide MergerInv, WriteEpoch;
    var t := DoCommitUnnoticed(s);
    EvolvesHere(s);
    KeepRoot(s, t);
    KeepIds(s, t);
    hide RootInv, IdsInv;
    KeepMerger(s, t, {});
  }

  /** Waiting batches are told of a failure although their documents are durable. */
  lemma {:induction false} CommitUnnoticedKeepsInv(s: State)
    requires Inv(s) && CanCommit(s)
    ensures Inv(DoCommitUnnoticed(s))
  {
    hide RootInv, IdsInv, MergerInv, BoltInv, FileInv, AckInv, SnapshotOk, PhaseOk, WriteEpoch;
    UnnoticedMerger(s);
    UnnoticedBolt(s);
    UnnoticedFiles(s);
    UnnoticedAcks(s);
    KeepBatches(s, DoCommitUnnoticed(s));
  }

  // ---- failing ----

  lemma {:induction false} FailAcks(s: State)
    requires AckInv(s) && FlushInv(s) && s.flush.Flushing?
    ensures AckInv(DoFailFlush(s))
  {
    hide Earlier, Represents, Bound, PhaseOk, AlreadyWritten;
    var f, t := s.flush, DoFailFlush(s);
    BatchesClosing(s.closed, f.acks, false);
    assert s.closed + Closing(f.acks, false) == t.closed;
    assert Batches(t.closed) + TakenAcks(t.flush) + t.pendingAcks == Batches(s.closed) + TakenAcks(s.flush) + s.pendingAcks;
    assert t.fired + t.carried + TakenCalls(t.flush) + t.pendingCalls == s.fired + s.carried + TakenCalls(s.flush) + s.pendingCalls;
  }

  lemma {:induction false} FailFiles(s: State)
    requires FlushInv(s) && FileInv(s) && s.flush.Flushing?
    ensures FileInv(DoFailFlush(s))
  {
    hide SnapshotOk, PhaseOk;
  }

  lemma {:induction false} FailFlushKeepsInv(s: State)
    requires Inv(s) && s.flush.Flushing?
    ensures Inv(DoFailFlush(s))
  {
    hide RootInv, IdsInv, BatchesInv, MergerInv, BoltInv, FileInv, AckInv, SnapshotOk, PhaseOk, Extends, Reserved, Evolves;
    var t := DoFailFlush(s);
    EvolvesHere(s);
    SameDisk(s, t);
    KeepRoot(s, t);
    KeepIds(s, t);
    FailAcks(s);
    FailFiles(s);
    KeepBatches(s, t);
    KeepMerger(s, t, {});
    KeepBolt(s, t);
  }
}
