/** The persister's steps keep the invariant. */
module FlushSteps {
  import opened Segments
  import opened Snapshots
  import opened MergeContents
  import opened IndexSpec
  import opened Introducer
  import Merger
  import opened Store
  import opened Protocol
  import opened ProtocolInvariant
  import opened RootSteps
  import opened MergeSteps

  // ---- capturing the root ----

  lemma {:induction false} CaptureFlush(s: State)
    requires RootInv(s) && IdsInv(s) && BoltInv(s) && FileInv(s) && s.flush.Idle?
    ensures FlushInv(DoCapture(s))
  {
    hide RecordOk, SegmentsOk, Represents, EarlierStates;
    CaptureEarlier(s);
    hide Earlier, Bound;
    assert s.log[..|s.log|] == s.log;
  }

  lemma {:induction false} CaptureEarlier(s: State)
    requires RootInv(s) && IdsInv(s) && s.flush.Idle?
    ensures Earlier(DoCapture(s), s.root.segments)
  {
    EarlierSelf(s.root.segments);
  }

  lemma {:induction false} CaptureAcks(s: State)
    requires AckInv(s) && s.flush.Idle?
    ensures AckInv(DoCapture(s))
  {
    var t := DoCapture(s);
    assert Batches(s.closed) + TakenAcks(s.flush) + s.pendingAcks == Batches(t.closed) + TakenAcks(t.flush) + t.pendingAcks;
    assert s.fired + s.carried + TakenCalls(s.flush) + s.pendingCalls == t.fired + t.carried + TakenCalls(t.flush) + t.pendingCalls;
  }

  lemma {:induction false} CaptureKeepsInv(s: State)
    requires Inv(s) && s.flush.Idle?
    ensures Inv(DoCapture(s))
  {
    hide BatchesInv, MergerInv, FlushInv, BoltInv, FileInv, AckInv;
    var t := DoCapture(s);
    EvolvesSame(s.root.segments);
    CaptureFlush(s);
    CaptureAcks(s);
    KeepBatches(s, t);
    KeepMerger(s, t, {});
    KeepBolt(s, t);
    KeepFilesAtRoot(s, t);
  }

  // ---- introducing the merge of the in-memory segments ----

  lemma {:induction false} SplitByKind(segments: seq<SegmentSnapshot>, e: Entry)
    ensures Occurrences(Contents(segments), e)
         == Occurrences(Contents(FileSegments(segments)), e) + Occurrences(Contents(MemorySegments(segments)), e)
  {
    if segments != [] {
      var n := |segments| - 1;
      SplitByKind(segments[..n], e);
      ContentsSnoc(FileSegments(segments[..n]), segments[n]);
      ContentsSnoc(MemorySegments(segments[..n]), segments[n]);
      OccurrencesConcat(Contents(segments[..n]), segments[n].Contents(), e);
      OccurrencesConcat(Contents(FileSegments(segments[..n])), segments[n].Contents(), e);
      OccurrencesConcat(Contents(MemorySegments(segments[..n])), segments[n].Contents(), e);
    }
  }

  lemma {:induction false} KindsOk(segments: seq<SegmentSnapshot>)
    requires SegmentsOk(segments)
    ensures SegmentsOk(FileSegments(segments)) && SegmentsOk(MemorySegments(segments))
    ensures forall i | 0 <= i < |FileSegments(segments)| :: FileSegments(segments)[i] in segments && FileSegments(segments)[i].file
    ensures forall i | 0 <= i < |MemorySegments(segments)| :: MemorySegments(segments)[i] in segments && !MemorySegments(segments)[i].file
    ensures Ids(FileSegments(segments)) == FileIds(segments)
  {
    if segments != [] {
      var n := |segments| - 1;
      KindsOk(segments[..n]);
      LastIdIsNew(segments);
      var kept := if segments[n].file then FileSegments(segments[..n]) else MemorySegments(segments[..n]);
      forall i | 0 <= i < |kept|
        ensures kept[i].id != segments[n].id
      {
        var k :| 0 <= k < n && segments[..n][k] == kept[i];
        assert segments[k].id != segments[n].id;
      }
      FileIdsSnoc(segments);
      if segments[n].file {
        Merger.IdsConcat(FileSegments(segments[..n]), [segments[n]]);
        assert Ids([segments[n]]) == {segments[n].id} by { assert [segments[n]][0] == segments[n]; }
      }
    }
  }

  lemma {:induction false} FileIdsSnoc(segments: seq<SegmentSnapshot>)
    requires segments != []
    ensures
      var n := |segments| - 1;
      FileIds(segments) == (if segments[n].file then FileIds(segments[..n]) + {segments[n].id} else FileIds(segments[..n]))
  {
  }

  lemma {:induction false} MergedIsContents(inputs: seq<SegmentSnapshot>)
    ensures Segments.Merged(inputs) == Contents(inputs)
  {
    if inputs != [] {
      MergedIsContents(inputs[..|inputs| - 1]);
    }
  }

  lemma {:induction false} MergedNotEmpty(inputs: seq<SegmentSnapshot>)
    requires inputs != [] && inputs[|inputs| - 1].Ok()
    ensures Segments.Merged(inputs) != []
  {
    var last := inputs[|inputs| - 1];
    Segments.LiveCount(last.docs, last.deleted);
  }

  /** Replacing the in-memory segments by their merge keeps the documents of the snapshot. */
  lemma {:induction false} EquivalentContents(segments: seq<SegmentSnapshot>, out: nat, e: Entry)
    ensures Occurrences(Contents(EquivalentSegments(segments, out)), e) == Occurrences(Contents(segments), e)
  {
    var memory := MemorySegments(segments);
    var merged := SegmentSnapshot(out, Segments.Merged(memory), true, {});
    SplitByKind(segments, e);
    ContentsSnoc(FileSegments(segments), merged);
    LiveAll(merged.docs);
    MergedIsContents(memory);
    OccurrencesConcat(Contents(FileSegments(segments)), merged.Contents(), e);
  }

  lemma {:induction false} EquivalentOk(segments: seq<SegmentSnapshot>, out: nat)
    requires SegmentsOk(segments) && MemorySegments(segments) != [] && out !in Ids(segments)
    ensures SegmentsOk(EquivalentSegments(segments, out))
    ensures forall i | 0 <= i < |EquivalentSegments(segments, out)| :: EquivalentSegments(segments, out)[i].file
    ensures Ids(EquivalentSegments(segments, out)) == FileIds(segments) + {out}
    ensures forall i | 0 <= i < |EquivalentSegments(segments, out)| ::
              EquivalentSegments(segments, out)[i] in segments
              || EquivalentSegments(segments, out)[i] == SegmentSnapshot(out, Segments.Merged(MemorySegments(segments)), true, {})
  {
    KindsOk(segments);
    var memory := MemorySegments(segments);
    var merged := SegmentSnapshot(out, Segments.Merged(memory), true, {});
    MergedNotEmpty(memory);
    assert merged.Ok();
    var files := FileSegments(segments);
    forall i | 0 <= i < |files|
      ensures files[i].id != out
    {
      var k :| 0 <= k < |segments| && segments[k] == files[i];
    }
    Merger.IdsConcat(files, [merged]);
    assert Ids([merged]) == {out} by { assert [merged][0] == merged; }
  }

  lemma {:induction false} EquivalentBound(s: State, segments: seq<SegmentSnapshot>, out: nat)
    requires SegmentsOk(segments) && MemorySegments(segments) != [] && out !in Ids(segments) && Bound(segments, s.docsOf)
    requires out in s.docsOf && s.docsOf[out] == Segments.Merged(MemorySegments(segments))
    ensures Bound(EquivalentSegments(segments, out), s.docsOf)
  {
    EquivalentOk(segments, out);
    var after := EquivalentSegments(segments, out);
    forall i | 0 <= i < |after|
      ensures after[i].id in s.docsOf && s.docsOf[after[i].id] == after[i].docs
    {
      if after[i] in segments {
        var k :| 0 <= k < |segments| && segments[k] == after[i];
      }
    }
  }

  lemma {:induction false} EquivalentRepresents(segments: seq<SegmentSnapshot>, out: nat, internal: map<string, string>, index: Index)
    requires Represents(segments, internal, index)
    ensures Represents(EquivalentSegments(segments, out), internal, index)
  {
    forall e
      ensures Occurrences(Contents(EquivalentSegments(segments, out)), e) == Listed(index.docs, e)
    {
      EquivalentContents(segments, out, e);
    }
  }

  lemma {:induction false} MemoryMergeStandIn(s: State, t: State)
    requires s.flush.Flushing? && SnapshotOk(s, s.flush) && PhaseOk(s, s.flush) && s.flush.phase.MergedInMemory?
    requires t.files == s.files && t.docsOf == s.docsOf && t.log == s.log && Reserved(t) <= Reserved(s) - {s.flush.phase.out}
    requires t.flush.Flushing? && t.flush.snapshot == s.flush.snapshot && t.flush.upTo == s.flush.upTo
    ensures StandIn(t, t.flush, EquivalentSegments(s.flush.snapshot.segments, s.flush.phase.out))
  {
    hide Represents, TaskFor, SegmentsOk, Bound, EquivalentSegments, EarlierStates, AlreadyWritten;
    var f := s.flush;
    var out, segments := f.phase.out, f.snapshot.segments;
    assert out in Reserved(s);
    EquivalentOk(segments, out);
    EquivalentBound(s, segments, out);
    EquivalentRepresents(segments, out, f.snapshot.internal, Replay(s.log[..f.upTo]));
    assert FileIds(segments) <= Ids(segments);
  }

  lemma {:induction false} MemoryMergeIds(s: State)
    requires IdsInv(s) && s.flush.Flushing? && s.flush.phase.MergedInMemory? && |s.flush.phase.task.news| == |s.flush.phase.task.ids|
    requires Ids(DoIntroduceMemoryMerge(s).root.segments) <= Ids(s.root.segments) + {s.flush.phase.out}
    ensures IdsInv(DoIntroduceMemoryMerge(s)) && s.flush.phase.out in Reserved(s)
    ensures Reserved(DoIntroduceMemoryMerge(s)) <= Reserved(s) - {s.flush.phase.out}
  {
    hide AfterMerge, DroppedByMerge, Skipped, EquivalentSegments;
    assert s.flush.phase.out in Reserved(s);
  }

  lemma {:induction false} MemoryMergeEpoch(s: State)
    requires RootInv(s) && s.flush.Flushing? && s.flush.phase.MergedInMemory?
    requires |s.flush.phase.task.news| == |s.flush.phase.task.ids|
    ensures DoIntroduceMemoryMerge(s).root.epoch == s.nextEpoch > s.root.epoch
  {
  }

  lemma {:induction false} MemoryMergeReady(s: State)
    requires RootInv(s) && IdsInv(s) && FlushInv(s) && s.flush.Flushing? && s.flush.phase.MergedInMemory?
    ensures
      var f := s.flush;
      var out, inputs := f.phase.out, MemorySegments(f.snapshot.segments);
      && |f.phase.task.news| == |f.phase.task.ids| && TaskFor(f.phase.task, inputs, out)
      && EarlierStates(s.root.segments, inputs) && out !in Ids(s.root.segments)
      && out in s.docsOf && s.docsOf[out] == Segments.Merged(inputs)
      && out in s.ineligible && out in s.files && out in Reserved(s)
  {
    var f := s.flush;
    assert f.phase.out in Reserved(s);
    hide Represents, SegmentsOk, Bound, AlreadyWritten;
    KindsOk(f.snapshot.segments);
    InputsAreEarlier(s.root.segments, f.snapshot.segments, MemorySegments(f.snapshot.segments));
  }

  lemma {:induction false} MemoryMergeRoot(s: State)
    requires RootInv(s) && IdsInv(s) && FlushInv(s) && s.flush.Flushing? && s.flush.phase.MergedInMemory?
    ensures |s.flush.phase.task.news| == |s.flush.phase.task.ids|
    ensures RootInv(DoIntroduceMemoryMerge(s)) && IdsInv(DoIntroduceMemoryMerge(s)) && Extends(s, DoIntroduceMemoryMerge(s))
    ensures Evolves(s.root.segments, DoIntroduceMemoryMerge(s).root.segments, {s.flush.phase.out})
    ensures Ids(DoIntroduceMemoryMerge(s).root.segments) <= Ids(s.root.segments) + {s.flush.phase.out}
    ensures FileIds(DoIntroduceMemoryMerge(s).root.segments) <= FileIds(s.root.segments) + {s.flush.phase.out}
    ensures s.flush.phase.out in s.ineligible && s.flush.phase.out in s.files && DoIntroduceMemoryMerge(s).ineligible == s.ineligible
    ensures s.flush.phase.out in Reserved(s) && Reserved(DoIntroduceMemoryMerge(s)) <= Reserved(s) - {s.flush.phase.out}
    ensures DoIntroduceMemoryMerge(s).root.epoch == s.nextEpoch > s.root.epoch
    ensures FlushOut(DoIntroduceMemoryMerge(s).flush) == {} && SwappedFiles(DoIntroduceMemoryMerge(s).flush) == {}
  {
    hide RootInv, IdsInv, FlushInv, TaskFor, EarlierStates, Reserved, Evolves, AfterMerge, Skipped, Extends, DroppedByMerge, MemorySegments;
    MemoryMergeReady(s);
    var memory := MemorySegments(s.flush.snapshot.segments);
    IntroduceTaskRoot(s, memory, s.flush.phase.out, s.flush.phase.task);
    RootFrame(s, DoIntroduceMemoryMerge(s), IntroduceTask(s, s.flush.phase.task));
    MemoryMergeIds(s);
    MemoryMergeEpoch(s);
  }

  lemma {:induction false} RootFrame(s: State, t: State, u: State)
    requires RootInv(u) && t.root == u.root && t.nextEpoch == u.nextEpoch && t.docsOf == u.docsOf && t.log == u.log
    requires t.files == s.files && t.docsOf == s.docsOf && t.log == s.log
    ensures RootInv(t) && Extends(s, t)
  {
    hide Represents, Bound;
  }

  lemma {:induction false} MemoryMergeSnapshot(s: State, t: State, out: nat)
    requires s.flush.Flushing? && SnapshotOk(s, s.flush) && Extends(s, t)
    requires t.flush.Flushing? && t.flush.snapshot == s.flush.snapshot && t.flush.upTo == s.flush.upTo
    requires SwappedFiles(s.flush) == SwappedFiles(t.flush) == {}
    requires Evolves(s.root.segments, t.root.segments, {out}) && out in Reserved(s) && Reserved(t) <= Reserved(s)
    requires t.root.epoch > s.root.epoch && t.bolt == s.bolt && t.durable == s.durable
    requires FileIds(t.root.segments) <= FileIds(s.root.segments) + {out} && out in s.ineligible && t.ineligible == s.ineligible
    ensures SnapshotOk(t, t.flush) && t.flush.snapshot.epoch < t.root.epoch
  {
    KeepEarlier(s, t, s.flush.snapshot.segments, {out});
    assert t.log[..s.flush.upTo] == s.log[..s.flush.upTo];
  }

  lemma {:induction false} MemoryMergeFlush(s: State)
    requires RootInv(s) && IdsInv(s) && FlushInv(s) && s.flush.Flushing? && s.flush.phase.MergedInMemory?
    requires |s.flush.phase.task.news| == |s.flush.phase.task.ids|
    ensures FlushInv(DoIntroduceMemoryMerge(s))
  {
    hide RootInv, IdsInv, Extends, Reserved, SnapshotOk, AfterMerge, StandIn, TaskFor;
    var t := DoIntroduceMemoryMerge(s);
    MemoryMergeRoot(s);
    MemoryMergeSnapshot(s, t, s.flush.phase.out);
    MemoryMergeStandIn(s, t);
  }

  lemma {:induction false} IntroduceMemoryMergeKeepsInv(s: State)
    requires Inv(s) && s.flush.Flushing? && s.flush.phase.MergedInMemory?
    ensures |s.flush.phase.task.news| == |s.flush.phase.task.ids|
    ensures Inv(DoIntroduceMemoryMerge(s))
  {
    hide RootInv, IdsInv, BatchesInv, MergerInv, FlushInv, BoltInv, FileInv, AckInv, AfterMerge, Extends, Reserved, Skipped;
    MemoryMergeRoot(s);
    MemoryMergeFlush(s);
    var t := DoIntroduceMemoryMerge(s);
    KeepBatches(s, t);
    KeepMerger(s, t, {s.flush.phase.out});
    NewRootInBolt(s);
    KeepBolt(s, t);
    MemoryMergeFiles(s, t);
    AcksSamePlace(s, t);
  }

  lemma {:induction false} NewRootInBolt(s: State)
    requires RootInv(s) && BoltInv(s)
    ensures s.nextEpoch !in s.bolt
  {
  }

  lemma {:induction false} MemoryMergeFiles(s: State, t: State)
    requires FileInv(s) && Extends(s, t) && t.ineligible == s.ineligible
    requires s.flush.Flushing? && s.flush.phase.MergedInMemory? && s.flush.phase.out in s.files && s.flush.phase.out in s.ineligible
    requires FileIds(t.root.segments) <= FileIds(s.root.segments) + {s.flush.phase.out}
    requires t.bolt == s.bolt && SwappedFiles(t.flush) == SwappedFiles(s.flush) && t.orphans == s.orphans && t.readers == s.readers
    ensures FileInv(t)
  {
  }

  lemma {:induction false} AcksSamePlace(s: State, t: State)
    requires AckInv(s) && t.closed == s.closed && t.fired == s.fired && t.carried == s.carried
    requires t.pendingAcks == s.pendingAcks && t.pendingCalls == s.pendingCalls && t.durable == s.durable && t.log == s.log
    requires s.flush.Flushing? && t.flush.Flushing?
    requires t.flush.acks == s.flush.acks && t.flush.calls == s.flush.calls && t.flush.upTo == s.flush.upTo
    ensures AckInv(t)
  {
  }
}
