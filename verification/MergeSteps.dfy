/** Merging files and in-memory segments keeps the invariant. */
module MergeSteps {
  import opened Segments
  import opened Snapshots
  import opened IndexSpec
  import opened Introducer
  import Merger
  import opened Store
  import opened Protocol
  import opened ProtocolInvariant
  import opened RootSteps

  lemma {:induction false} EarlierSelf(segments: seq<SegmentSnapshot>)
    requires SegmentsOk(segments)
    ensures EarlierStates(segments, segments)
  {
    forall i | 0 <= i < |segments|
      ensures EarlierState(segments, segments[i])
    {
      FindAt(segments, i);
    }
  }

  lemma {:induction false} PlanMerger(s: State)
    requires RootInv(s) && IdsInv(s) && s.merger.NotMerging?
    ensures MergerInv(s.(merger := Planned(s.root.segments, {})))
  {
    EarlierSelf(s.root.segments);
  }

  lemma {:induction false} PlanMergesKeepsInv(s: State)
    requires Inv(s) && s.merger.NotMerging?
    ensures Inv(s.(merger := Planned(s.root.segments, {})))
  {
    hide RootInv, IdsInv, BatchesInv, MergerInv, FlushInv, BoltInv, FileInv, AckInv, Extends, Reserved;
    var t := s.(merger := Planned(s.root.segments, {}));
    SameDisk(s, t);
    KeepRoot(s, t);
    KeepIds(s, t);
    PlanMerger(s);
    KeepBatches(s, t);
    NewIdKeepsFlush(s, t);
    KeepBolt(s, t);
    KeepFilesAtRoot(s, t);
    KeepAcks(s, t);
  }

  /** Whatever the plan puts into a task: it was a file with a live document when the merger took
      the root, so nothing is left out of the merge. */
  lemma {:induction false} TasksHaveLiveFiles(s: State, task: seq<SegmentSnapshot>)
    requires Inv(s) && !s.merger.NotMerging?
    requires forall i | 0 <= i < |task| :: task[i] in s.merger.snapshot && task[i].file
    ensures Merger.AllLiveFiles(task)
  {
    hide RootInv, IdsInv, BatchesInv, FlushInv, BoltInv, FileInv, AckInv, EarlierStates, Bound, Reserved, OutOk;
    assert SegmentsOk(s.merger.snapshot);
    forall i | 0 <= i < |task|
      ensures task[i].LiveSize() != 0
    {
      assert task[i] in s.merger.snapshot;
      var k :| 0 <= k < |s.merger.snapshot| && s.merger.snapshot[k] == task[i];
    }
  }

  /** What `Merger.RunMergeTask` promises about its result is what the step needs. */
  lemma {:induction false} TaskCanBeMerged(s: State, task: seq<SegmentSnapshot>, m: SegmentMerge)
    requires Inv(s) && s.merger.Planned? && task != [] && DistinctIds(task)
    requires forall i | 0 <= i < |task| :: task[i] in s.merger.snapshot && task[i].file
    requires Merger.AllLiveFiles(task) ==> BuiltFrom(m, [task])
    requires m.ids == [s.nextSegmentId + 1] && |m.news| == 1 && m.news[0].Some?
    ensures CanMergeFiles(s, task, m)
  {
    hide Inv, Merger.AllLiveFiles;
    TasksHaveLiveFiles(s, task);
  }

  // ---- a merge gets its output ----

  lemma {:induction false} NewFileKeepsRoot(s: State, t: State, out: nat)
    requires RootInv(s) && IdsInv(s) && out == s.nextSegmentId + 1 == t.nextSegmentId
    requires t.root == s.root && t.log == s.log && t.nextEpoch == s.nextEpoch && t.batches == s.batches
    requires out in t.docsOf && t.docsOf == s.docsOf[out := t.docsOf[out]] && t.files == s.files[out := t.docsOf[out]]
    requires (t.merger == s.merger && FlushOut(t.flush) == {out}) || (t.flush == s.flush && MergerOut(t.merger) == {out})
    ensures RootInv(t) && IdsInv(t) && Extends(s, t)
    ensures Reserved(t) <= Reserved(s) + {out}
  {
    forall i | 0 <= i < |s.root.segments|
      ensures s.root.segments[i].id != out
    {
      assert s.root.segments[i].id in s.docsOf;
    }
    NewFileExtends(s, t, out);
    assert RootInv(t) by { hide IdsInv, Represents, Extends, Reserved; }
    hide RootInv, Extends;
    NewFileIds(s, t, out);
  }

  lemma {:induction false} NewFileExtends(s: State, t: State, out: nat)
    requires IdsInv(s) && out == s.nextSegmentId + 1 && t.log == s.log
    requires out in t.docsOf && t.docsOf == s.docsOf[out := t.docsOf[out]] && t.files == s.files[out := t.docsOf[out]]
    ensures Extends(s, t)
  {
  }

  lemma {:induction false} NewFileIds(s: State, t: State, out: nat)
    requires IdsInv(s) && out == s.nextSegmentId + 1 == t.nextSegmentId && t.root == s.root && t.batches == s.batches
    requires forall i | 0 <= i < |s.root.segments| :: s.root.segments[i].id != out
    requires out in t.docsOf && t.docsOf == s.docsOf[out := t.docsOf[out]] && t.files == s.files[out := t.docsOf[out]]
    requires (t.merger == s.merger && FlushOut(t.flush) == {out}) || (t.flush == s.flush && MergerOut(t.merger) == {out})
    ensures IdsInv(t) && Reserved(t) <= Reserved(s) + {out}
  {
    assert MergerOut(s.merger) <= Reserved(s) && FlushOut(s.flush) <= Reserved(s);
    hide MergerOut, FlushOut;
  }

  lemma {:induction false} MergeFilesMerger(s: State, inputs: seq<SegmentSnapshot>, task: SegmentMerge)
    requires IdsInv(s) && MergerInv(s) && CanMergeFiles(s, inputs, task)
    requires Extends(s, DoMergeFiles(s, inputs, task))
    requires Reserved(DoMergeFiles(s, inputs, task)) <= Reserved(s) + {s.nextSegmentId + 1}
    ensures MergerInv(DoMergeFiles(s, inputs, task))
  {
    hide IdsInv, EarlierStates, Bound, Extends, Reserved, TaskFor, Earlier;
    NewIdKeepsEarlier(s, DoMergeFiles(s, inputs, task), s.merger.snapshot);
  }

  lemma {:induction false} MergeFilesKeepsInv(s: State, inputs: seq<SegmentSnapshot>, task: SegmentMerge)
    requires Inv(s) && CanMergeFiles(s, inputs, task)
    ensures Inv(DoMergeFiles(s, inputs, task))
  {
    hide RootInv, IdsInv, BatchesInv, MergerInv, FlushInv, BoltInv, FileInv, AckInv, Extends, Reserved, TaskFor;
    var t := DoMergeFiles(s, inputs, task);
    NewFileKeepsRoot(s, t, s.nextSegmentId + 1);
    MergeFilesMerger(s, inputs, task);
    KeepBatches(s, t);
    NewIdKeepsFlush(s, t);
    KeepBolt(s, t);
    KeepFilesAtRoot(s, t);
    KeepAcks(s, t);
  }

  lemma {:induction false} MergeInMemoryFlush(s: State, task: SegmentMerge)
    requires IdsInv(s) && FlushInv(s) && CanMergeInMemory(s, task)
    requires Extends(s, DoMergeInMemory(s, task))
    requires Reserved(DoMergeInMemory(s, task)) <= Reserved(s) + {s.nextSegmentId + 1}
    ensures FlushInv(DoMergeInMemory(s, task))
  {
    NewIdKeepsEarlier(s, DoMergeInMemory(s, task), s.flush.snapshot.segments);
  }

  lemma {:induction false} MergeInMemoryKeepsInv(s: State, task: SegmentMerge)
    requires Inv(s) && CanMergeInMemory(s, task)
    ensures Inv(DoMergeInMemory(s, task))
  {
    hide RootInv, IdsInv, BatchesInv, MergerInv, FlushInv, BoltInv, FileInv, Extends, Reserved, TaskFor;
    var t := DoMergeInMemory(s, task);
    NewFileKeepsRoot(s, t, s.nextSegmentId + 1);
    MergeInMemoryFlush(s, task);
    KeepBatches(s, t);
    NewIdKeepsMerger(s, t);
    KeepBolt(s, t);
    KeepFilesAtRoot(s, t);
  }

  // ---- introducing a merge ----

  lemma {:induction false} NothingDropped(segments: seq<SegmentSnapshot>, m: SegmentMerge)
    requires SegmentsOk(segments)
    ensures DroppedByMerge(segments, m) == {}
  {
  }

  lemma {:induction false} IntroduceTaskRoot(s: State, inputs: seq<SegmentSnapshot>, out: nat, task: SegmentMerge)
    requires RootInv(s) && TaskFor(task, inputs, out) && EarlierStates(s.root.segments, inputs)
    requires out !in Ids(s.root.segments) && out in s.docsOf && s.docsOf[out] == Segments.Merged(inputs)
    ensures RootInv(IntroduceTask(s, task))
    ensures Evolves(s.root.segments, IntroduceTask(s, task).root.segments, {out})
    ensures Ids(IntroduceTask(s, task).root.segments) <= (Ids(s.root.segments) - Ids(inputs)) + {out}
    ensures Skipped(s.root.segments, task) ==> out !in Ids(IntroduceTask(s, task).root.segments)
    ensures FileIds(IntroduceTask(s, task).root.segments) <= FileIds(s.root.segments) + {out}
    ensures IntroduceTask(s, task).ineligible == s.ineligible
  {
    var t := IntroduceTask(s, task);
    MergeEvolves(s.root.segments, task, inputs, out);
    MergeShapes(s.root.segments, task, inputs, out);
    MergeRefines(s.root, task, [inputs], Replay(s.log));
    NothingDropped(s.root.segments, task);
    forall i | 0 <= i < |t.root.segments|
      ensures t.root.segments[i].id in t.docsOf && t.docsOf[t.root.segments[i].id] == t.root.segments[i].docs
      ensures t.root.segments[i].file ==> t.root.segments[i].id in FileIds(s.root.segments) + {out}
    {
      assert MergeShape(s.root.segments, inputs, out, t.root.segments[i]);
      if t.root.segments[i].id != out {
        var k :| 0 <= k < |s.root.segments| && s.root.segments[k] == t.root.segments[i];
      }
    }
  }

  lemma {:induction false} InputsAreEarlier(segments: seq<SegmentSnapshot>, snapshot: seq<SegmentSnapshot>, inputs: seq<SegmentSnapshot>)
    requires EarlierStates(segments, snapshot)
    requires forall i | 0 <= i < |inputs| :: inputs[i] in snapshot
    ensures EarlierStates(segments, inputs) && Ids(inputs) <= Ids(snapshot)
  {
    forall i | 0 <= i < |inputs|
      ensures EarlierState(segments, inputs[i]) && inputs[i].id in Ids(snapshot)
    {
      var k :| 0 <= k < |snapshot| && snapshot[k] == inputs[i];
    }
  }

  lemma {:induction false} FileMergeIds(s: State)
    requires IdsInv(s) && s.merger.Merged? && |s.merger.task.news| == |s.merger.task.ids|
    requires Ids(DoIntroduceFileMerge(s).root.segments) <= Ids(s.root.segments) + {s.merger.out}
    ensures IdsInv(DoIntroduceFileMerge(s)) && s.merger.out in Reserved(s)
    ensures Reserved(DoIntroduceFileMerge(s)) <= Reserved(s) - {s.merger.out}
  {
    hide AfterMerge, DroppedByMerge, Skipped;
    assert s.merger.out in Reserved(s);
  }

  /** The root part of introducing a finished file merge. */
  lemma {:induction false} FileMergeRoot(s: State)
    requires RootInv(s) && IdsInv(s) && MergerInv(s) && s.merger.Merged?
    ensures RootInv(DoIntroduceFileMerge(s)) && IdsInv(DoIntroduceFileMerge(s))
    ensures Evolves(s.root.segments, DoIntroduceFileMerge(s).root.segments, {s.merger.out})
    ensures Ids(DoIntroduceFileMerge(s).root.segments) <= (Ids(s.root.segments) - Ids(s.merger.inputs)) + {s.merger.out}
    ensures FileIds(DoIntroduceFileMerge(s).root.segments) - {s.merger.out} <= FileIds(s.root.segments)
    ensures s.merger.out in FileIds(DoIntroduceFileMerge(s).root.segments) ==> s.merger.out in DoIntroduceFileMerge(s).ineligible
    ensures s.ineligible - {s.merger.out} <= DoIntroduceFileMerge(s).ineligible
    ensures s.merger.out in s.files && s.merger.out in Reserved(s) && Reserved(DoIntroduceFileMerge(s)) <= Reserved(s) - {s.merger.out}
    ensures Extends(s, DoIntroduceFileMerge(s))
  {
    var m := s.merger;
    assert m.out in Reserved(s);
    InputsAreEarlier(s.root.segments, m.snapshot, m.inputs);
    IntroduceTaskRoot(s, m.inputs, m.out, m.task);
    FileMergeIds(s);
    hide IdsInv, Reserved, Evolves, AfterMerge, Represents, EarlierStates;
    assert FileIds(DoIntroduceFileMerge(s).root.segments) <= Ids(DoIntroduceFileMerge(s).root.segments);
  }

  lemma {:induction false} FileMergeMerger(s: State)
    requires RootInv(s) && IdsInv(s) && MergerInv(s) && s.merger.Merged?
    ensures MergerInv(DoIntroduceFileMerge(s))
  {
    assert |s.merger.task.news| == |s.merger.task.ids|;
    hide RootInv, IdsInv, DoIntroduceFileMerge, OutOk;
    FileMergeRoot(s);
    var m := s.merger;
    var t := DoIntroduceFileMerge(s);
    InputsAreEarlier(s.root.segments, m.snapshot, m.inputs);
    KeepEarlier(s, t, m.snapshot, {m.out});
    FileMergeDone(s);
  }

  lemma {:induction false} FileMergeDone(s: State)
    requires s.merger.Merged? && |s.merger.task.news| == |s.merger.task.ids|
    ensures DoIntroduceFileMerge(s).merger == Planned(s.merger.snapshot, s.merger.done + Ids(s.merger.inputs))
  {
  }

  lemma {:induction false} FileMergeFiles(s: State)
    requires RootInv(s) && IdsInv(s) && MergerInv(s) && FlushInv(s) && FileInv(s) && BoltInv(s) && s.merger.Merged?
    requires |s.merger.task.news| == |s.merger.task.ids|
    ensures
      var t := DoIntroduceFileMerge(s);
      && FlushOut(s.flush) * s.ineligible <= t.ineligible
      && (s.flush.Flushing? ==>
            FileIds(t.root.segments) <= t.ineligible + FileIds(s.flush.snapshot.segments) + SwappedFiles(s.flush))
      && FileIds(t.root.segments) <= t.files.Keys
      && FileIds(t.root.segments) <= t.ineligible + NewestFiles(s.bolt) + SwappedFiles(s.flush) + s.orphans
      && t.root.epoch > s.root.epoch && t.root.epoch !in s.bolt
  {
    hide *;
    MergeGoesForward(s);
    FileMergeRoot(s);
    Coverage(s);
    OutNotInRoot(s);
    forall x | x in FileIds(DoIntroduceFileMerge(s).root.segments)
      ensures x in DoIntroduceFileMerge(s).ineligible || (x in FileIds(s.root.segments) && x !in s.ineligible)
    {
      assert x == s.merger.out || x in FileIds(DoIntroduceFileMerge(s).root.segments) - {s.merger.out};
      assert x in s.ineligible && x != s.merger.out ==> x in s.ineligible - {s.merger.out};
    }
  }

  /** The parts of the invariant that say which files of the root are safe. */
  lemma {:induction false} Coverage(s: State)
    requires FlushInv(s) && FileInv(s)
    ensures s.flush.Flushing? ==>
              FileIds(s.root.segments) <= s.ineligible + FileIds(s.flush.snapshot.segments) + SwappedFiles(s.flush)
    ensures FileIds(s.root.segments) <= s.files.Keys
    ensures FileIds(s.root.segments) <= s.ineligible + NewestFiles(s.bolt) + SwappedFiles(s.flush) + s.orphans
  {
  }

  lemma {:induction false} OutNotInRoot(s: State)
    requires IdsInv(s) && s.merger.Merged?
    ensures s.merger.out !in FileIds(s.root.segments) && s.merger.out !in FlushOut(s.flush)
  {
    assert s.merger.out in Reserved(s);
    assert FileIds(s.root.segments) <= Ids(s.root.segments);
  }

  lemma {:induction false} MergeGoesForward(s: State)
    requires RootInv(s) && BoltInv(s) && s.merger.Merged? && |s.merger.task.news| == |s.merger.task.ids|
    ensures DoIntroduceFileMerge(s).root.epoch > s.root.epoch && DoIntroduceFileMerge(s).root.epoch !in s.bolt
    ensures DoIntroduceFileMerge(s).files == s.files
  {
  }

  lemma {:induction false} IntroduceFileMergeKeepsInv(s: State)
    requires Inv(s) && s.merger.Merged?
    ensures |s.merger.task.news| == |s.merger.task.ids|
    ensures Inv(DoIntroduceFileMerge(s))
  {
    assert |s.merger.task.news| == |s.merger.task.ids|;
    IntroduceFileMergeStep(s);
  }

  lemma {:induction false} IntroduceFileMergeStep(s: State)
    requires Inv(s) && s.merger.Merged? && |s.merger.task.news| == |s.merger.task.ids|
    ensures Inv(DoIntroduceFileMerge(s))
  {
    hide RootInv, IdsInv, BatchesInv, MergerInv, FlushInv, BoltInv, FileInv, AckInv, AfterMerge, Extends, Reserved, Skipped;
    var t := DoIntroduceFileMerge(s);
    FileMergeRoot(s);
    FileMergeMerger(s);
    FileMergeFiles(s);
    KeepBatches(s, t);
    KeepFlush(s, t, {s.merger.out});
    KeepBolt(s, t);
    KeepFiles(s, t);
    KeepAcks(s, t);
  }

  // ---- ending a round of merges ----

  lemma {:induction false} UnmarkKeepsInv(s: State, t: State, gone: set<nat>)
    requires Inv(s) && t == s.(merger := NotMerging, ineligible := s.ineligible - gone)
    requires gone !! Ids(s.root.segments) && gone !! FlushOut(s.flush)
    ensures Inv(t)
  {
    hide RootInv, IdsInv, BatchesInv, MergerInv, FlushInv, BoltInv, FileInv, AckInv, Extends, Reserved, Evolves;
    EvolvesHere(s);
    SameDisk(s, t);
    KeepRoot(s, t);
    KeepIds(s, t);
    KeepBatches(s, t);
    UnmarkFiles(s, gone);
    KeepFlush(s, t, {});
    KeepBolt(s, t);
    KeepFiles(s, t);
    KeepAcks(s, t);
    assert MergerInv(t) by { NoMerger(t); }
  }

  lemma {:induction false} NoMerger(s: State)
    requires s.merger.NotMerging?
    ensures MergerInv(s)
  {
  }

  /** Steps that touch nothing but what is removable and the backups. */
  lemma {:induction false} BackgroundKeepsInv(s: State, t: State)
    requires Inv(s) && t == s.(eligible := t.eligible, readers := t.readers) && FileInv(t)
    ensures Inv(t)
  {
    hide RootInv, IdsInv, BatchesInv, MergerInv, FlushInv, BoltInv, FileInv, AckInv, Extends, Reserved, Evolves;
    EvolvesHere(s);
    SameDisk(s, t);
    KeepRoot(s, t);
    KeepIds(s, t);
    KeepBatches(s, t);
    Coverage(s);
    KeepMerger(s, t, {});
    KeepFlush(s, t, {});
    KeepBolt(s, t);
    KeepAcks(s, t);
  }

  lemma {:induction false} EvolvesHere(s: State)
    requires RootInv(s)
    ensures Evolves(s.root.segments, s.root.segments, {})
  {
    EvolvesSame(s.root.segments);
  }

  lemma {:induction false} UnmarkFiles(s: State, gone: set<nat>)
    requires FlushInv(s) && FileInv(s) && gone !! Ids(s.root.segments)
    ensures FileIds(s.root.segments) <= s.files.Keys
    ensures
      var left := s.ineligible - gone;
      && (s.flush.Flushing? ==>
            FileIds(s.root.segments) <= left + FileIds(s.flush.snapshot.segments) + SwappedFiles(s.flush))
      && FileIds(s.root.segments) <= left + NewestFiles(s.bolt) + SwappedFiles(s.flush) + s.orphans
  {
    assert FileIds(s.root.segments) <= Ids(s.root.segments);
  }

  lemma {:induction false} FinishMergesKeepsInv(s: State)
    requires Inv(s) && s.merger.Planned?
    ensures Inv(s.(merger := NotMerging, ineligible := s.ineligible - s.merger.done))
  {
    UnmarkKeepsInv(s, s.(merger := NotMerging, ineligible := s.ineligible - s.merger.done), s.merger.done);
  }

  lemma {:induction false} FailMergeKeepsInv(s: State)
    requires Inv(s) && s.merger.Merged?
    ensures Inv(s.(merger := NotMerging, ineligible := s.ineligible - {s.merger.out}))
  {
    UnmarkKeepsInv(s, s.(merger := NotMerging, ineligible := s.ineligible - {s.merger.out}), {s.merger.out});
  }
}
