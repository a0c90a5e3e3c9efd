/** What a purge that takes a file of the root leads to, from any state: the next flush commits a
    record that cannot be loaded. */
module UnsafePurge {
  import opened Options
  import opened Segments
  import opened Snapshots
  import opened IndexSpec
  import opened Introducer
  import opened Store
  import opened Protocol
  import opened ProtocolInvariant
  import opened PurgeSteps
  import opened FailedCommit
  import opened Runs

  /** A file of the root that the purge takes. */
  lemma {:induction false} TakenFile(s: State) returns (i: nat)
    requires !PurgeIsSafe(s)
    ensures i < |s.root.segments| && s.root.segments[i].file && s.root.segments[i].id !in Needed(s)
    ensures s.root.segments[i].id !in BoltFiles(s.bolt) && s.root.segments[i].id !in DoPurgeFiles(s).files
  {
    i :| 0 <= i < |s.root.segments| && s.root.segments[i].file && s.root.segments[i].id !in BoltFiles(s.bolt) + s.ineligible + Scheduled(s.readers);
  }

  /** Bolt has no snapshot of such a root yet. */
  lemma {:induction false} RootNotInBolt(s: State, i: nat)
    requires RootInv(s) && BoltInv(s) && i < |s.root.segments| && s.root.segments[i].file
    requires s.root.segments[i].id !in BoltFiles(s.bolt)
    ensures s.root.epoch !in s.bolt && forall e <- s.bolt :: e < s.root.epoch
  {
    hide Represents, Bound, RecordOk;
    if s.root.epoch in s.bolt {
      ListedInBolt(s, i);
    }
  }

  lemma {:induction false} ListedInBolt(s: State, i: nat)
    requires s.root.Ok() && i < |s.root.segments| && s.root.segments[i].file && s.root.epoch in s.bolt
    requires s.bolt[s.root.epoch].segments == RecordSegments(s.root.segments, {})
    ensures s.root.segments[i].id in BoltFiles(s.bolt)
  {
    RecordSegmentsAt(s.root.segments, {});
    assert s.root.segments[i].id in s.bolt[s.root.epoch].Files();
  }

  /** The flush that follows the purge, up to its commit. */
  function AfterWrite(s: State, bytesWritten: string): State
    requires s.flush.Idle?
  {
    DoWriteFiles(DoCapture(DoPurgeFiles(s)), bytesWritten)
  }

  function AfterFlush(s: State, bytesWritten: string): State
    requires s.flush.Idle?
  {
    var t := AfterWrite(s, bytesWritten);
    if t.flush.phase.added == {} then DoCommit(t) else DoCommit(DoSwapIn(t))
  }

  /** The steps up to the written record can be taken. */
  lemma {:induction false} WriteIsEnabled(s: State, bytesWritten: string)
    requires s.flush.Idle? && s.root.epoch > s.lastPersisted
    ensures Follows(s, PurgeFiles, DoPurgeFiles(s)) && Follows(DoPurgeFiles(s), Capture, DoCapture(DoPurgeFiles(s)))
    ensures Follows(DoCapture(DoPurgeFiles(s)), WriteFiles(bytesWritten), AfterWrite(s, bytesWritten))
  {
    hide NewFiles, PrepareRecord, Needed, Only;
  }

  /** So can those from there to the commit. */
  lemma {:induction false} CommitIsEnabled(t: State)
    requires t.flush.Flushing? && t.flush.phase.Written?
    ensures if t.flush.phase.added == {} then Follows(t, Commit, DoCommit(t))
            else Follows(t, SwapIn, DoSwapIn(t)) && CanCommit(DoSwapIn(t)) && Follows(DoSwapIn(t), Commit, DoCommit(DoSwapIn(t)))
  {
    hide AfterPersist, Reopened;
  }

  /** The record written lists the file, and nobody writes the file again. */
  lemma {:induction false} RecordOfTakenFile(s: State, bytesWritten: string, i: nat)
    requires s.root.Ok() && s.flush.Idle? && i < |s.root.segments| && s.root.segments[i].file
    requires s.root.segments[i].id !in DoPurgeFiles(s).files
    ensures
      var t, id := AfterWrite(s, bytesWritten), s.root.segments[i].id;
      && t.flush.Flushing? && t.flush.phase.Written? && t.flush.phase.record.segments.Keys == Ids(s.root.segments)
      && id in t.flush.phase.record.segments && t.flush.phase.record.segments[id].path == Some(id)
      && id !in t.files && t.flush.snapshot.epoch == s.root.epoch && t.bolt == s.bolt && t.upTo == s.upTo
  {
    RecordSegmentsAt(s.root.segments, {});
    var id := s.root.segments[i].id;
    assert id !in NewFiles(s.root.segments, {});
  }

  lemma {:induction false} AfterWriteIs(s: State, bytesWritten: string)
    requires s.flush.Idle?
    ensures
      var t := AfterWrite(s, bytesWritten);
      && t.flush.Flushing? && t.flush.phase.Written? && t.flush.snapshot == s.root && t.flush.upTo == |s.log|
      && t.flush.calls == s.pendingCalls && t.fired == s.fired && t.carried == s.carried && t.bolt == s.bolt && t.log == s.log
  {
    hide NewFiles, PrepareRecord, Only, Needed;
  }

  /** Swapping in and committing what was written. */
  lemma {:induction false} CommitOf(t: State)
    requires t.flush.Flushing? && t.flush.phase.Written?
    requires t.flush.snapshot.epoch !in t.bolt && forall e <- t.bolt :: e < t.flush.snapshot.epoch
    ensures
      var e, u := t.flush.snapshot.epoch, if t.flush.phase.added == {} then DoCommit(t) else DoCommit(DoSwapIn(t));
      && u.bolt == t.bolt[e := t.flush.phase.record] && e in u.bolt && Max(u.bolt.Keys) == e
      && u.files == t.files && u.durable == t.flush.upTo && u.log == t.log && u.fired == t.fired + t.carried + t.flush.calls
  {
    hide AfterPersist, Reopened, Closing;
    var e := t.flush.snapshot.epoch;
    assert IsMax(t.bolt[e := t.flush.phase.record].Keys, e);
  }

  lemma {:induction false} Committed(s: State, bytesWritten: string)
    requires s.flush.Idle? && s.root.epoch !in s.bolt && forall e <- s.bolt :: e < s.root.epoch
    ensures
      var t, u := AfterWrite(s, bytesWritten), AfterFlush(s, bytesWritten);
      && t.flush.Flushing? && t.flush.phase.Written?
      && u.bolt == s.bolt[s.root.epoch := t.flush.phase.record]
      && s.root.epoch in u.bolt && u.files == t.files && Max(u.bolt.Keys) == s.root.epoch && u.durable == |s.log| && u.log == s.log
      && u.fired == s.fired + s.carried + s.pendingCalls
  {
    hide AfterWrite, DoCommit, DoSwapIn;
    AfterWriteIs(s, bytesWritten);
    CommitOf(AfterWrite(s, bytesWritten));
  }

  /** The purge, the flush up to its commit, and a crash. */
  function LosingSteps(s: State, bytesWritten: string): seq<Step>
    requires s.flush.Idle?
  {
    [PurgeFiles, Capture, WriteFiles(bytesWritten)]
      + (if AfterWrite(s, bytesWritten).flush.phase.added == {} then [Commit] else [SwapIn, Commit]) + [CrashAndReopen]
  }

  /** These steps can be taken, one after the other. */
  lemma {:induction false} LosingRun(s: State, bytesWritten: string) returns (states: seq<State>)
    requires s.flush.Idle? && s.root.epoch > s.lastPersisted
    ensures Chain(states, LosingSteps(s, bytesWritten)) && states[0] == s
    ensures states[|states| - 2] == AfterFlush(s, bytesWritten)
    ensures states[|states| - 1] == Reopen(AfterFlush(s, bytesWritten), AfterFlush(s, bytesWritten).bolt, AfterFlush(s, bytesWritten).durable)
  {
    hide *;
    WriteIsEnabled(s, bytesWritten);
    AfterWriteIs(s, bytesWritten);
    var t, u := AfterWrite(s, bytesWritten), AfterFlush(s, bytesWritten);
    CommitIsEnabled(t);
    AfterFlushIs(s, bytesWritten);
    CrashIs(u);
    var last := Reopen(u, u.bolt, u.durable);
    LosingStepsAre(s, bytesWritten);
    var before := [s, DoPurgeFiles(s), DoCapture(DoPurgeFiles(s)), t];
    states := if t.flush.phase.added == {} then before + [u, last] else before + [DoSwapIn(t), u, last];
    AChain(states, LosingSteps(s, bytesWritten));
  }

  lemma {:induction false} LosingStepsAre(s: State, bytesWritten: string)
    requires s.flush.Idle?
    ensures AfterWrite(s, bytesWritten).flush.Flushing? && AfterWrite(s, bytesWritten).flush.phase.Written?
    ensures LosingSteps(s, bytesWritten) ==
              if AfterWrite(s, bytesWritten).flush.phase.added == {}
              then [PurgeFiles, Capture, WriteFiles(bytesWritten), Commit, CrashAndReopen]
              else [PurgeFiles, Capture, WriteFiles(bytesWritten), SwapIn, Commit, CrashAndReopen]
  {
    AfterWriteIs(s, bytesWritten);
    hide AfterWrite;
  }

  lemma {:induction false} AfterFlushIs(s: State, bytesWritten: string)
    requires s.flush.Idle?
    ensures
      var t := AfterWrite(s, bytesWritten);
      && t.flush.Flushing? && t.flush.phase.Written?
      && AfterFlush(s, bytesWritten) == if t.flush.phase.added == {} then DoCommit(t) else DoCommit(DoSwapIn(t))
  {
    AfterWriteIs(s, bytesWritten);
    hide AfterWrite, DoCommit, DoSwapIn;
  }

  lemma {:induction false} AChain(states: seq<State>, steps: seq<Step>)
    requires |states| == |steps| + 1 && forall i | 0 <= i < |steps| :: Follows(states[i], steps[i], states[i + 1])
    ensures Chain(states, steps)
  {
    hide Follows;
  }

  /** From any state that a run reaches, an unsafe purge and the flush after it, which can be taken,
      leave as newest snapshot in bolt one that lists a missing file, while the batches it covers count
      as durable and callbacks have fired. A new process opens another one. */
  lemma {:induction false} UnsafePurgeLoses(s: State, bytesWritten: string) returns (states: seq<State>)
    requires Inv(s) && s.flush.Idle? && s.root.epoch > s.lastPersisted && !PurgeIsSafe(s)
    ensures Chain(states, LosingSteps(s, bytesWritten)) && states[0] == s
    ensures
      var u, e := states[|states| - 2], s.root.epoch;
      && e in u.bolt && Max(u.bolt.Keys) == e && !(u.bolt[e].Files() <= u.files.Keys)
      && LoadSnapshot(u.bolt[e], u.files, e).Failure?
      && u.durable == |u.log| == |s.log| && u.fired == s.fired + s.carried + s.pendingCalls
    ensures states[|states| - 1].root.epoch != s.root.epoch
  {
    hide IdsInv, BatchesInv, MergerInv, FlushInv, FileInv, AckInv, PurgeIsSafe, DoPurgeFiles, AfterWrite, AfterFlush, Reopen, LoadSnapshot,
      Chain, LosingSteps;
    states := LosingRun(s, bytesWritten);
    var i := TakenFile(s);
    RootNotInBolt(s, i);
    hide BoltInv;
    RecordOfTakenFile(s, bytesWritten, i);
    Committed(s, bytesWritten);
    var t, u, id := AfterWrite(s, bytesWritten), AfterFlush(s, bytesWritten), s.root.segments[i].id;
    NotLoaded(t.flush.phase.record, t.files, id, s.root.epoch);
    assert id in u.bolt[s.root.epoch].Files();
    OpensAnother(u, s.root.epoch);
  }

  lemma {:induction false} FailedIsSkipped(epochs: seq<nat>, bolt: map<nat, Record>, files: map<nat, seq<Entry>>, epoch: nat)
    requires forall i | 0 <= i < |epochs| :: epochs[i] in bolt
    requires epoch in bolt && LoadSnapshot(bolt[epoch], files, epoch).Failure?
    ensures FirstLoadable(epochs, bolt, files).Some? ==> FirstLoadable(epochs, bolt, files).value.epoch in epochs
    ensures FirstLoadable(epochs, bolt, files).Some? ==> FirstLoadable(epochs, bolt, files).value.epoch != epoch
  {
    hide LoadSnapshot;
    if epochs != [] {
      var n := |epochs| - 1;
      LoadedEpoch(bolt[epochs[n]], files, epochs[n]);
      FailedIsSkipped(epochs[..n], bolt, files, epoch);
    }
  }

  lemma {:induction false} LoadedEpoch(record: Record, files: map<nat, seq<Entry>>, epoch: nat)
    ensures LoadSnapshot(record, files, epoch).Success? ==> LoadSnapshot(record, files, epoch).value.epoch == epoch
  {
  }

  lemma {:induction false} OpensAnother(s: State, epoch: nat)
    requires epoch in s.bolt && epoch > 0 && LoadSnapshot(s.bolt[epoch], s.files, epoch).Failure?
    ensures Reopen(s, s.bolt, s.durable).root.epoch != epoch
  {
    hide LoadSnapshot, FirstLoadable;
    FailedIsSkipped(Ascending(s.bolt.Keys), s.bolt, s.files, epoch);
  }

  // ---- runs without a failed flush ----

  lemma {:induction false} NoLeftover(s: State, step: Step)
    requires Enabled(s, step) && !step.FailFlush? && s.orphans == {}
    ensures Do(s, step).orphans == {}
  {
    hide FirstLoadable, AfterBatch, AfterMerge, AfterPersist, PrepareRecord, NewFiles, TaskFor, BatchData, WriteEpoch, Closing,
      Obsoletes, LeftInBolt, LeftEligible, Only, Needed, BoltFiles, DroppedByBatch, DroppedByMerge, Max, Ascending, Reopened,
      Excluded, ToWrite, EquivalentSegments, Skipped, UpToEpoch, MemorySegments;
  }

  /** As long as no flush fails, every purge that the persister or the merger starts is safe. */
  lemma {:induction false} PurgesAreSafe(states: seq<State>, steps: seq<Step>, i: nat)
    requires Chain(states, steps) && states[0] == INITIAL && i < |states|
    requires forall k | 0 <= k < |steps| :: !steps[k].FailFlush?
    ensures Inv(states[i]) && states[i].orphans == {}
    ensures i < |steps| ==> Moves(states[i], steps[i], states[i + 1])
  {
    hide Inv, Do, Enabled, PurgeIsSafe;
    if i == 0 {
      InitialInv();
    } else {
      PurgesAreSafe(states, steps, i - 1);
      NoLeftover(states[i - 1], steps[i - 1]);
      StepKeepsInv(states[i - 1], steps[i - 1]);
    }
    if i < |steps| {
      assert Follows(states[i], steps[i], states[i + 1]);
      PurgeWhenIdle(states[i], steps[i]);
    }
  }

  lemma {:induction false} PurgeWhenIdle(s: State, step: Step)
    requires Inv(s) && Enabled(s, step) && s.orphans == {}
    ensures step.PurgeFiles? ==> PurgeIsSafe(s)
  {
    hide Inv, PurgeIsSafe;
    if step.PurgeFiles? {
      PurgeSafeWithoutFailures(s);
    }
  }

  /** Such a run keeps every guarantee, whenever files are purged. */
  lemma {:induction false} WithoutFailures(states: seq<State>, steps: seq<Step>)
    requires Chain(states, steps) && states[0] == INITIAL
    requires forall k | 0 <= k < |steps| :: !steps[k].FailFlush?
    ensures IsRun(states, steps)
  {
    hide Moves, Follows;
    forall i | 0 <= i < |steps|
      ensures Moves(states[i], steps[i], states[i + 1])
    {
      PurgesAreSafe(states, steps, i);
    }
  }
}
