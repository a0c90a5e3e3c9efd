/** An in-memory merge that the introducer skips: the new file stays marked as ineligible for removal
    until the index is opened again. */
module SkippedMerge {
  import opened Options
  import opened Segments
  import opened Snapshots
  import opened MergeContents
  import opened IndexSpec
  import opened Introducer
  import opened Store
  import opened Protocol
  import opened ProtocolInvariant
  import opened RootSteps
  import opened MergeSteps
  import opened PurgeSteps
  import opened FlushSteps
  import opened Runs

  /** A marked file on disk that no goroutine knows of any more. */
  ghost predicate Stuck(s: State, id: nat) {
    && id in s.ineligible && id in s.files && id <= s.nextSegmentId
    && id !in Ids(s.root.segments) && id !in Reserved(s)
    && UnknownToMerger(s.merger, id) && UnknownToFlush(s.flush, id)
  }

  ghost predicate UnknownToMerger(m: Merging, id: nat) {
    m.NotMerging? || (id !in Ids(m.snapshot) && id !in m.done)
  }

  ghost predicate UnknownToFlush(f: Flush, id: nat) {
    f.Flushing? ==>
      && id !in Ids(f.snapshot.segments)
      && match f.phase
         case Captured(_) => true
         case MergedInMemory(out, _) => id != out
         case Equivalent(segments) => id !in Ids(segments)
         case Written(record, _) => id !in record.Files()
         case Swapped(record, _) => id !in record.Files()
  }

  // ---- the introduction ----

  predicate CanIntroduce(s: State) {
    s.flush.Flushing? && s.flush.phase.MergedInMemory? && |s.flush.phase.task.news| == |s.flush.phase.task.ids|
  }

  lemma {:induction false} SkippedRoot(s: State)
    requires CanIntroduce(s) && RootInv(s) && IdsInv(s) && FlushInv(s) && Skipped(s.root.segments, s.flush.phase.task)
    ensures s.flush.phase.out !in Ids(DoIntroduceMemoryMerge(s).root.segments)
  {
    var f := s.flush;
    assert f.phase.out in Reserved(s);
    KindsOk(f.snapshot.segments);
    InputsAreEarlier(s.root.segments, f.snapshot.segments, MemorySegments(f.snapshot.segments));
    MergeEvolves(s.root.segments, f.phase.task, MemorySegments(f.snapshot.segments), f.phase.out);
  }

  /** The merge is skipped exactly when the root holds no live document of its inputs any more. */
  lemma {:induction false} SkippedIff(s: State)
    requires CanIntroduce(s) && RootInv(s) && FlushInv(s)
    ensures Skipped(s.root.segments, s.flush.phase.task) <==> CurrentAll(s.root.segments, MemorySegments(s.flush.snapshot.segments)) == []
  {
    var segments, inputs, task := s.root.segments, MemorySegments(s.flush.snapshot.segments), s.flush.phase.task;
    KindsOk(s.flush.snapshot.segments);
    InputsAreEarlier(segments, s.flush.snapshot.segments, inputs);
    KeptIff(segments, task, inputs, s.flush.phase.out);
  }

  lemma {:induction false} KeptIff(segments: seq<SegmentSnapshot>, task: SegmentMerge, inputs: seq<SegmentSnapshot>, out: nat)
    requires SegmentsOk(segments) && TaskFor(task, inputs, out) && EarlierStates(segments, inputs)
    ensures Skipped(segments, task) <==> CurrentAll(segments, inputs) == []
  {
    NewSegmentContents(segments, task, [inputs], 0);
    Segments.LiveCount(task.news[0].value, NewDeleted(segments, task, 0));
    hide NewDeleted, BuiltFrom, CurrentAll, Live;
    assert NewSegments(segments, task, 0) == [];
  }

  /** When the merge is skipped, such a file is left. */
  lemma {:induction false} SkippedIsStuck(s: State)
    requires CanIntroduce(s) && Skipped(s.root.segments, s.flush.phase.task) && Inv(s)
    ensures Stuck(DoIntroduceMemoryMerge(s), s.flush.phase.out)
  {
    hide RootInv, IdsInv, BatchesInv, MergerInv, FlushInv, BoltInv, FileInv, AckInv, DoIntroduceMemoryMerge, Skipped, Reserved,
      Evolves, Extends, UnknownToMerger, Ids, FileIds;
    MemoryMergeRoot(s);
    SkippedRoot(s);
    OutIsUnknown(s);
    OutIsLow(s);
  }

  lemma {:induction false} OutIsLow(s: State)
    requires IdsInv(s) && CanIntroduce(s)
    ensures s.flush.phase.out <= s.nextSegmentId == DoIntroduceMemoryMerge(s).nextSegmentId
    ensures DoIntroduceMemoryMerge(s).files == s.files && DoIntroduceMemoryMerge(s).merger == s.merger
    ensures
      var f := DoIntroduceMemoryMerge(s).flush;
      Skipped(s.root.segments, s.flush.phase.task) ==> f == s.flush.(phase := Captured(false))
  {
    hide Skipped, AfterMerge;
    assert s.flush.phase.out in Reserved(s);
  }

  lemma {:induction false} OutIsUnknown(s: State)
    requires MergerInv(s) && FlushInv(s) && s.flush.Flushing? && s.flush.phase.MergedInMemory?
    ensures UnknownToMerger(s.merger, s.flush.phase.out) && s.flush.phase.out !in Ids(s.flush.snapshot.segments)
  {
    hide SegmentsOk, Bound, EarlierStates, OutOk, Represents;
    assert s.flush.phase.out in Reserved(s);
  }

  // ---- nothing but a restart finds it ----

  lemma {:induction false} NotInRoot(s: State, step: Step, id: nat)
    requires Inv(s) && Enabled(s, step) && !Restarts(step) && Stuck(s, id)
    ensures id !in Ids(Do(s, step).root.segments)
  {
    var added := StepEvolves(s, step);
    hide Inv, Enabled, Do, Reserved;
    StaysOut(s.root.segments, Do(s, step).root.segments, added, id);
  }

  lemma {:induction false} StaysOut(before: seq<SegmentSnapshot>, after: seq<SegmentSnapshot>, added: set<nat>, id: nat)
    requires Evolves(before, after, added) && id !in Ids(before) && id !in added
    ensures id !in Ids(after)
  {
  }

  /** What the steps hand out, mark and write. */
  lemma {:induction false} NotReserved(s: State, step: Step, id: nat)
    requires Enabled(s, step) && !Restarts(step) && id !in Reserved(s) && id <= s.nextSegmentId
    ensures id !in Reserved(Do(s, step)) && id <= Do(s, step).nextSegmentId
  {
    NewlyReserved(s, step);
    hide *;
  }

  /** A step reserves at most the id that it hands out. */
  lemma {:induction false} NewlyReserved(s: State, step: Step)
    requires Enabled(s, step) && !Restarts(step)
    ensures Do(s, step).nextSegmentId >= s.nextSegmentId
    ensures forall id: nat | id in Reserved(Do(s, step)) :: id in Reserved(s) || id > s.nextSegmentId
  {
    hide AfterBatch, AfterMerge, AfterPersist, PrepareRecord, NewFiles, TaskFor, BatchData, WriteEpoch, Closing, Obsoletes,
      LeftInBolt, LeftEligible, Only, Needed, DroppedByBatch, DroppedByMerge, Reopened, Excluded, ToWrite, EquivalentSegments,
      Skipped, MemorySegments;
  }

  lemma {:induction false} RootFilesOnly(s: State, b: SegmentIntroduction, m: SegmentMerge)
    ensures DroppedByBatch(s.root.segments, b) <= Ids(s.root.segments) && DroppedByMerge(s.root.segments, m) <= Ids(s.root.segments)
  {
  }

  lemma {:induction false} StaysMarked(s: State, step: Step, id: nat)
    requires Enabled(s, step) && !Restarts(step) && Stuck(s, id)
    ensures id in Do(s, step).ineligible
  {
    hide AfterBatch, AfterMerge, AfterPersist, PrepareRecord, NewFiles, TaskFor, BatchData, WriteEpoch, Closing, Obsoletes,
      LeftInBolt, LeftEligible, Only, Needed, DroppedByBatch, DroppedByMerge, Reopened, Excluded, ToWrite, EquivalentSegments,
      Skipped, MemorySegments, Ids;
    match step {
      case IntroduceBatch(b) => RootFilesOnly(s, s.batches[b].next, SegmentMerge([], [], map[]));
      case IntroduceFileMerge => RootFilesOnly(s, SegmentIntroduction(0, [], map[], {}, map[]), s.merger.task);
      case IntroduceMemoryMerge => RootFilesOnly(s, SegmentIntroduction(0, [], map[], {}, map[]), s.flush.phase.task);
      case _ =>
    }
  }

  lemma {:induction false} StaysOnDisk(s: State, step: Step, id: nat)
    requires Enabled(s, step) && !Restarts(step) && id in s.ineligible && id in s.files
    ensures id in Do(s, step).files
  {
    hide AfterBatch, AfterMerge, AfterPersist, PrepareRecord, NewFiles, TaskFor, BatchData, WriteEpoch, Closing, Obsoletes,
      LeftInBolt, LeftEligible, DroppedByBatch, DroppedByMerge, Reopened, Excluded, ToWrite, EquivalentSegments,
      Skipped, MemorySegments, BoltFiles, Scheduled;
  }

  lemma {:induction false} InputsListed(m: Merging)
    requires m.Merged? && forall i | 0 <= i < |m.inputs| :: m.inputs[i] in m.snapshot
    ensures Ids(m.inputs) <= Ids(m.snapshot)
  {
    forall i | 0 <= i < |m.inputs|
      ensures m.inputs[i].id in Ids(m.snapshot)
    {
      var k :| 0 <= k < |m.snapshot| && m.snapshot[k] == m.inputs[i];
    }
  }

  lemma {:induction false} StaysUnknownToMerger(s: State, step: Step, id: nat)
    requires MergerInv(s) && Enabled(s, step) && !Restarts(step) && Stuck(s, id)
    ensures UnknownToMerger(Do(s, step).merger, id)
  {
    hide AfterBatch, AfterMerge, AfterPersist, PrepareRecord, NewFiles, TaskFor, BatchData, WriteEpoch, Closing, Obsoletes,
      LeftInBolt, LeftEligible, Only, Needed, DroppedByBatch, DroppedByMerge, Reopened, Excluded, ToWrite, EquivalentSegments,
      Skipped, MemorySegments, Earlier, OutOk, Ids, Reserved;
    if step.IntroduceFileMerge? {
      InputsListed(s.merger);
    }
  }

  lemma {:induction false} RecordIds(segments: seq<SegmentSnapshot>, exclude: set<nat>, id: nat)
    requires id !in Ids(segments)
    ensures id !in Record(RecordSegments(segments, exclude), map[]).Files()
    ensures id !in RecordSegments(segments, exclude)
    ensures forall k <- RecordSegments(segments, exclude) :: RecordSegments(segments, exclude)[k].path != Some(id)
  {
    if segments != [] {
      var n := |segments| - 1;
      assert segments[n].id != id;
      RecordIds(segments[..n], exclude, id);
    }
  }

  lemma {:induction false} EquivalentIds(segments: seq<SegmentSnapshot>, out: nat, id: nat)
    requires id !in Ids(segments) && id != out && SegmentsOk(segments)
    ensures id !in Ids(EquivalentSegments(segments, out))
  {
    KindsOk(segments);
    var stand := EquivalentSegments(segments, out);
    forall i | 0 <= i < |stand|
      ensures stand[i].id != id
    {
      if i < |FileSegments(segments)| {
        assert stand[i] == FileSegments(segments)[i];
      }
    }
  }

  lemma {:induction false} StaysUnknownToFlush(s: State, step: Step, id: nat)
    requires FlushInv(s) && Enabled(s, step) && !Restarts(step) && Stuck(s, id)
    ensures UnknownToFlush(Do(s, step).flush, id)
  {
    hide AfterBatch, AfterMerge, AfterPersist, NewFiles, TaskFor, BatchData, WriteEpoch, Closing, Obsoletes,
      LeftInBolt, LeftEligible, Only, Needed, DroppedByBatch, DroppedByMerge, Reopened, EquivalentSegments,
      Skipped, MemorySegments, Earlier, OutOk, Ids, Reserved, RecordSegments, PhaseOk, Represents;
    if step.IntroduceMemoryMerge? {
      OutDiffers(s, id);
      EquivalentIds(s.flush.snapshot.segments, s.flush.phase.out, id);
    } else if step.WriteFiles? {
      RecordIds(ToWrite(s.flush), Excluded(s.flush), id);
    }
  }

  lemma {:induction false} OutDiffers(s: State, id: nat)
    requires s.flush.Flushing? && s.flush.phase.MergedInMemory? && id !in Reserved(s)
    ensures id != s.flush.phase.out
  {
  }

  lemma {:induction false} StuckStays(s: State, step: Step, id: nat)
    requires Inv(s) && Enabled(s, step) && !Restarts(step) && Stuck(s, id)
    ensures Stuck(Do(s, step), id)
  {
    NotInRoot(s, step, id);
    NotReserved(s, step, id);
    StaysMarked(s, step, id);
    StaysOnDisk(s, step, id);
    hide Do, Enabled, RootInv, IdsInv, BatchesInv, BoltInv, FileInv, AckInv, MergerInv, FlushInv, UnknownToMerger, UnknownToFlush;
    StaysUnknownToMerger(s, step, id);
    StaysUnknownToFlush(s, step, id);
  }

  /** Through any run without a restart the file stays marked and on disk. */
  lemma {:induction false} StuckThroughRun(states: seq<State>, steps: seq<Step>, i: nat, id: nat)
    requires IsRun(states, steps) && i < |states| && Inv(states[0]) && Stuck(states[0], id)
    requires forall k | 0 <= k < i :: !Restarts(steps[k])
    ensures Inv(states[i]) && Stuck(states[i], id)
  {
    hide Inv, Stuck, Do, Enabled, PurgeIsSafe;
    if i > 0 {
      StuckThroughRun(states, steps, i - 1, id);
      assert Moves(states[i - 1], steps[i - 1], states[i]);
      StepKeepsInv(states[i - 1], steps[i - 1]);
      StuckStays(states[i - 1], steps[i - 1], id);
    }
  }

  // ---- exactly when the mark can go ----

  /** Some run without a restart clears the mark. */
  ghost predicate CanBeUnmarked(s: State, id: nat) {
    exists states, steps :: Unmarks(s, states, steps, id)
  }

  ghost predicate Unmarks(s: State, states: seq<State>, steps: seq<Step>, id: nat) {
    && IsRun(states, steps) && states[0] == s && (forall k | 0 <= k < |steps| :: !Restarts(steps[k]))
    && id !in states[|states| - 1].ineligible
  }

  lemma {:induction false} IntroducedFlush(s: State)
    requires CanIntroduce(s)
    requires !Skipped(s.root.segments, s.flush.phase.task)
    ensures
      var f := DoIntroduceMemoryMerge(s).flush;
      f.Flushing? && f.phase == Equivalent(EquivalentSegments(s.flush.snapshot.segments, s.flush.phase.out))
  {
    hide AfterMerge, Skipped, EquivalentSegments;
  }

  /** Writing and committing a stand-in snapshot takes two steps and lists its segments. */
  lemma {:induction false} StandInCommits(t: State, i: nat)
    requires t.flush.Flushing? && t.flush.phase.Equivalent? && DistinctIds(t.flush.phase.segments)
    requires i < |t.flush.phase.segments| && t.flush.phase.segments[i].file
    requires NewFiles(t.flush.phase.segments, Excluded(t.flush)) == {}
    ensures
      var w := DoWriteFiles(t, "0");
      CanWriteFiles(t) && CanCommit(w) && t.flush.phase.segments[i].id !in DoCommit(w).ineligible
  {
    hide NewFiles, RecordSegments, WriteEpoch, Closing, Excluded;
    var segments, exclude := t.flush.phase.segments, Excluded(t.flush);
    RecordSegmentsAt(segments, exclude);
    var w := DoWriteFiles(t, "0");
    assert w.flush.phase.record.segments == RecordSegments(segments, exclude);
    assert RecordSegments(segments, exclude)[segments[i].id].path == Some(segments[i].id);
    assert segments[i].id in w.flush.phase.record.Files();
  }

  lemma {:induction false} TwoSteps(t: State, w: State, u: State, id: nat)
    requires Moves(t, WriteFiles("0"), w) && Moves(w, Commit, u) && id !in u.ineligible
    ensures CanBeUnmarked(t, id)
  {
    hide Moves;
    assert Unmarks(t, [t, w, u], [WriteFiles("0"), Commit], id);
  }

  lemma {:induction false} FlushPart(s: State)
    requires Inv(s)
    ensures FlushInv(s)
  {
  }

  /** A merge that was introduced is committed by the next two steps, which clears the mark. */
  lemma {:induction false} IntroducedIsUnmarked(s: State)
    requires CanIntroduce(s) && !Skipped(s.root.segments, s.flush.phase.task) && Inv(s)
    ensures CanBeUnmarked(DoIntroduceMemoryMerge(s), s.flush.phase.out)
  {
    hide Inv, FlushInv, Skipped, DoIntroduceMemoryMerge, EquivalentSegments, NewFiles, DoWriteFiles, DoCommit, CanBeUnmarked, CanCommit,
      CanWriteFiles, DistinctIds;
    IntroducedFlush(s);
    FlushPart(s);
    StandInFiles(s);
    var t := DoIntroduceMemoryMerge(s);
    StandInCommits(t, |t.flush.phase.segments| - 1);
    TwoSteps(t, DoWriteFiles(t, "0"), DoCommit(DoWriteFiles(t, "0")), s.flush.phase.out);
  }

  lemma {:induction false} StandInFiles(s: State)
    requires FlushInv(s) && s.flush.Flushing? && s.flush.phase.MergedInMemory?
    ensures
      var segments := EquivalentSegments(s.flush.snapshot.segments, s.flush.phase.out);
      && DistinctIds(segments) && segments != [] && segments[|segments| - 1].id == s.flush.phase.out && segments[|segments| - 1].file
      && forall exclude: set<nat> :: NewFiles(segments, exclude) == {}
  {
    hide Represents, Bound, EarlierStates, AlreadyWritten, OutOk;
    var before, out := s.flush.snapshot.segments, s.flush.phase.out;
    KindsOk(before);
    assert out in Reserved(s);
    var stand := EquivalentSegments(before, out);
    forall i | 0 <= i < |FileSegments(before)|
      ensures stand[i] == FileSegments(before)[i] && stand[i].id != out
    {
      assert FileSegments(before)[i] in before;
    }
  }

  /** The mark of an in-memory merge's file can be cleared while the process lives exactly when the
      root still held a live document of the merged segments. */
  lemma {:induction false} UnmarkedIff(s: State)
    requires CanIntroduce(s) && Inv(s)
    ensures CanBeUnmarked(DoIntroduceMemoryMerge(s), s.flush.phase.out)
       <==> CurrentAll(s.root.segments, MemorySegments(s.flush.snapshot.segments)) != []
  {
    SkippedIff(s);
    var t, out := DoIntroduceMemoryMerge(s), s.flush.phase.out;
    hide *;
    if Skipped(s.root.segments, s.flush.phase.task) {
      SkippedIsStuck(s);
      IntroduceMemoryMergeKeepsInv(s);
      NeverUnmarked(t, out);
    } else {
      IntroducedIsUnmarked(s);
    }
  }

  lemma {:induction false} NeverUnmarked(s: State, id: nat)
    requires Inv(s) && Stuck(s, id)
    ensures !CanBeUnmarked(s, id)
  {
    hide Inv, Stuck, Moves;
    if states, steps :| Unmarks(s, states, steps, id) {
      StuckThroughRun(states, steps, |states| - 1, id);
      StuckIsMarked(states[|states| - 1], id);
    }
  }

  lemma {:induction false} StuckIsMarked(s: State, id: nat)
    requires Stuck(s, id)
    ensures id in s.ineligible && id in s.files && id !in Ids(s.root.segments)
  {
  }
}
