/** What every run of the protocol guarantees. */
module Runs {
  import opened Options
  import opened Segments
  import opened Snapshots
  import opened IndexSpec
  import opened Store
  import opened Introducer
  import opened Protocol
  import opened ProtocolInvariant
  import opened RootSteps
  import opened BatchSteps
  import opened MergeSteps
  import opened FlushSteps
  import opened CommitSteps
  import opened PurgeSteps
  import opened ReopenSteps

  /** A step that the goroutines may take; files are purged when that is safe. */
  ghost predicate Moves(s: State, step: Step, t: State) {
    Enabled(s, step) && t == Do(s, step) && (step.PurgeFiles? ==> PurgeIsSafe(s))
  }

  ghost predicate IsRun(states: seq<State>, steps: seq<Step>) {
    && |states| == |steps| + 1
    && forall i | 0 <= i < |steps| :: Moves(states[i], steps[i], states[i + 1])
  }

  lemma {:induction false} BackgroundStepKeepsInv(s: State, step: Step)
    requires Inv(s) && Enabled(s, step) && !step.PurgeFiles?
    requires step.MarkEligible? || step.PurgeBolt? || step.OpenBackup? || step.CloseBackup? || step.CrashAndReopen? || step.RollbackAndReopen?
    ensures Inv(Do(s, step))
  {
    hide Inv, Reopen, DoPurgeBolt;
    match step {
      case MarkEligible(epoch) => MarkEligibleKeepsInv(s, epoch);
      case PurgeBolt(keep) => PurgeBoltKeepsInv(s, keep);
      case OpenBackup => OpenBackupKeepsInv(s);
      case CloseBackup(i) => CloseBackupKeepsInv(s, i);
      case CrashAndReopen => CrashKeepsInv(s);
      case RollbackAndReopen(to) => RollbackKeepsInv(s, to);
    }
  }

  lemma {:induction false} StepKeepsInv(s: State, step: Step)
    requires Inv(s) && Enabled(s, step) && (step.PurgeFiles? ==> PurgeIsSafe(s))
    ensures Inv(Do(s, step))
  {
    hide Inv, Reopen, DoPurgeBolt, DoPrepare, DoIntroduceBatch, DoMergeFiles, DoIntroduceFileMerge, DoMergeInMemory,
      DoIntroduceMemoryMerge, DoWriteFiles, DoSwapIn, DoCommit, DoCommitUnnoticed, DoFailFlush, DoCapture, DoPurgeFiles;
    match step {
      case Prepare(batch, data, safe, callback) => PrepareKeepsInv(s, batch, data, safe, callback);
      case IntroduceBatch(id) => IntroduceBatchKeepsInv(s, id);
      case PlanMerges => PlanMergesKeepsInv(s);
      case MergeFiles(inputs, task) => MergeFilesKeepsInv(s, inputs, task);
      case IntroduceFileMerge => IntroduceFileMergeKeepsInv(s);
      case FinishMerges => FinishMergesKeepsInv(s);
      case FailMerge => FailMergeKeepsInv(s);
      case Capture => CaptureKeepsInv(s);
      case MergeInMemory(task) => MergeInMemoryKeepsInv(s, task);
      case IntroduceMemoryMerge => IntroduceMemoryMergeKeepsInv(s);
      case WriteFiles(bytesWritten) => WriteFilesKeepsInv(s, bytesWritten);
      case SwapIn => SwapInKeepsInv(s);
      case Commit => CommitKeepsInv(s);
      case CommitUnnoticed => CommitUnnoticedKeepsInv(s);
      case FailFlush => FailFlushKeepsInv(s);
      case PurgeFiles => PurgeFilesKeepsInvIff(s);
      case _ => BackgroundStepKeepsInv(s, step);
    }
  }

  /** The invariant holds in every state of every run. */
  lemma {:induction false} RunKeepsInv(states: seq<State>, steps: seq<Step>, i: nat)
    requires IsRun(states, steps) && i < |states| && states[0] == INITIAL
    ensures Inv(states[i])
  {
    hide Inv, Do, Enabled, PurgeIsSafe;
    if i == 0 {
      InitialInv();
    } else {
      RunKeepsInv(states, steps, i - 1);
      assert Moves(states[i - 1], steps[i - 1], states[i]);
      StepKeepsInv(states[i - 1], steps[i - 1]);
    }
  }

  // ---- refinement ----

  predicate Restarts(step: Step) { step.CrashAndReopen? || step.RollbackAndReopen? }

  ghost predicate LogMoves(s: State, step: Step, t: State) {
    match step
    case IntroduceBatch(id) => id in s.batches && t.log == s.log + [s.batches[id].batch]
    case CrashAndReopen => s.durable <= |s.log| && t.log == s.log[..s.durable]
    case RollbackAndReopen(to) => to in s.upTo && s.upTo[to] <= |s.log| && t.log == s.log[..s.upTo[to]] && t.root.epoch == to
    case _ => t.log == s.log
  }

  /** Batches take effect one at a time and whole; nothing but a restart undoes one. */
  lemma {:induction false} StepLog(s: State, step: Step)
    requires Inv(s) && Enabled(s, step)
    ensures LogMoves(s, step, Do(s, step))
  {
    hide RootInv, IdsInv, BatchesInv, MergerInv, FlushInv, FileInv, AckInv, Reopen, AfterBatch, AfterMerge, AfterPersist, RecordOk;
    match step {
      case CrashAndReopen => CrashKeepsInv(s);
      case RollbackAndReopen(to) => RollbackKeepsInv(s, to);
      case _ =>
    }
  }

  /** In every reachable state the live documents of the root are the documents of the map that the
      introduced batches build, once each, and the root has the map's internal values. */
  lemma {:induction false} RootIsTheMap(states: seq<State>, steps: seq<Step>, i: nat)
    requires IsRun(states, steps) && i < |states| && states[0] == INITIAL
    ensures
      var root, index := states[i].root, Replay(states[i].log);
      && root.Ok()
      && (forall e :: Occurrences(Contents(root.segments), e) == Listed(index.docs, e))
      && (forall j, k | 0 <= j < k < |Contents(root.segments)| :: Contents(root.segments)[j].id != Contents(root.segments)[k].id)
      && |Contents(root.segments)| == |index.docs|
      && SameInternal(root.internal, index.internal)
  {
    RunKeepsInv(states, steps, i);
    var root, index := states[i].root, Replay(states[i].log);
    assert RootInv(states[i]);
    CountListed(Contents(root.segments), index.docs);
    forall j, k | 0 <= j < k < |Contents(root.segments)|
      ensures Contents(root.segments)[j].id != Contents(root.segments)[k].id
    {
      OneLiveCopy(root.segments, index.docs, j, k);
    }
  }

  /** What the last batch that mentions a key said of it is what the root has: a document live once, or
      none; an internal value, or none. */
  lemma {:induction false} RootHasLastSaid(states: seq<State>, steps: seq<Step>, i: nat, n: nat, key: string)
    requires IsRun(states, steps) && i < |states| && states[0] == INITIAL && n < |states[i].log|
    ensures
      var root, log := states[i].root, states[i].log;
      key in log[n].ops && (forall j | n < j < |log| :: key !in log[j].ops) ==>
        forall doc :: Occurrences(Contents(root.segments), Entry(key, doc)) == if log[n].ops[key] == Some(doc) then 1 else 0
    ensures
      var root, log := states[i].root, states[i].log;
      key != TOT_BYTES_WRITTEN && key in log[n].internalOps && (forall j | n < j < |log| :: key !in log[j].internalOps) ==>
        if log[n].internalOps[key].Some? then key in root.internal && root.internal[key] == log[n].internalOps[key].value
        else key !in root.internal
  {
    hide IsRun, Replay;
    RootIsTheMap(states, steps, i);
    LastBatchDecides(states[i].log, n, key);
    if key != TOT_BYTES_WRITTEN {
      SameValue(states[i].root.internal, Replay(states[i].log).internal, key);
    }
    hide Occurrences, Contents;
    forall doc
      ensures Occurrences(Contents(states[i].root.segments), Entry(key, doc)) == Listed(Replay(states[i].log).docs, Entry(key, doc))
    {
    }
  }

  lemma {:induction false} SameValue(a: map<string, string>, b: map<string, string>, key: string)
    requires SameInternal(a, b) && key != TOT_BYTES_WRITTEN
    ensures key in a <==> key in b
    ensures key in a ==> a[key] == b[key]
  {
    assert key in a - {TOT_BYTES_WRITTEN} <==> key in a;
    assert key in b - {TOT_BYTES_WRITTEN} <==> key in b;
    if key in a {
      assert (a - {TOT_BYTES_WRITTEN})[key] == a[key] && (b - {TOT_BYTES_WRITTEN})[key] == b[key];
    }
  }

  // ---- durability ----

  /** A channel closed without error, or a callback fired, for this batch. */
  predicate Acknowledged(s: State, batch: nat) {
    (exists i :: 0 <= i < |s.closed| && s.closed[i] == Ack(batch, true)) || batch in s.fired
  }

  lemma {:induction false} AcknowledgedIsDurable(s: State, batch: nat)
    requires AckInv(s) && Acknowledged(s, batch)
    ensures batch <= s.durable
  {
    if batch in s.fired {
      var i :| 0 <= i < |s.fired| && s.fired[i] == batch;
    }
  }

  lemma {:induction false} DurableStep(s: State, step: Step, n: nat)
    requires Inv(s) && Enabled(s, step) && !step.RollbackAndReopen? && n <= s.durable
    ensures n <= |s.log| && n <= Do(s, step).durable && n <= |Do(s, step).log| && Do(s, step).log[..n] == s.log[..n]
  {
    hide *;
    StepLog(s, step);
    DurableGrows(s, step);
    DurableWithin(s);
    KeepsPrefix(s, step, Do(s, step), n);
  }

  lemma {:induction false} KeepsPrefix(s: State, step: Step, t: State, n: nat)
    requires LogMoves(s, step, t) && !step.RollbackAndReopen? && n <= s.durable <= |s.log|
    ensures n <= |t.log| && t.log[..n] == s.log[..n]
  {
  }

  lemma {:induction false} DurableWithin(s: State)
    requires Inv(s)
    ensures s.durable <= |s.log|
  {
    hide RootInv, IdsInv, BatchesInv, MergerInv, FlushInv, FileInv, AckInv;
  }

  lemma {:induction false} CommitDurable(s: State)
    requires FlushInv(s) && CanCommit(s)
    ensures s.durable <= DoCommit(s).durable && s.durable <= DoCommitUnnoticed(s).durable
  {
  }

  lemma {:induction false} DurableGrows(s: State, step: Step)
    requires Inv(s) && Enabled(s, step) && !step.RollbackAndReopen?
    ensures s.durable <= Do(s, step).durable
  {
    hide RootInv, IdsInv, BatchesInv, MergerInv, FlushInv, BoltInv, FileInv, AckInv, Reopen, AfterBatch, AfterMerge, AfterPersist,
      DoCommit, DoCommitUnnoticed, CanCommit;
    if step.CrashAndReopen? {
      CrashDurable(s);
    } else if step.Commit? || step.CommitUnnoticed? {
      CommitDurable(s);
    }
  }

  lemma {:induction false} CrashDurable(s: State)
    ensures Reopen(s, s.bolt, s.durable).durable == s.durable
  {
  }

  /** Once a batch is acknowledged, it stays in force in every later state of the run, however
      often the process crashes at whatever step, unless the user rolls back. */
  lemma {:induction false} AcknowledgedStays(states: seq<State>, steps: seq<Step>, i: nat, j: nat, batch: nat)
    requires IsRun(states, steps) && states[0] == INITIAL && i <= j < |states|
    requires Acknowledged(states[i], batch) && forall k | i <= k < j :: !steps[k].RollbackAndReopen?
    ensures batch <= |states[i].log| && batch <= |states[j].log| && states[j].log[..batch] == states[i].log[..batch]
  {
    RunKeepsInv(states, steps, i);
    AcknowledgedIsDurable(states[i], batch);
    DurableStays(states, steps, i, j, batch);
  }

  lemma {:induction false} DurableStays(states: seq<State>, steps: seq<Step>, i: nat, j: nat, n: nat)
    requires IsRun(states, steps) && states[0] == INITIAL && i <= j < |states|
    requires n <= states[i].durable && forall k | i <= k < j :: !steps[k].RollbackAndReopen?
    ensures n <= states[j].durable && n <= |states[i].log| && n <= |states[j].log| && states[j].log[..n] == states[i].log[..n]
    decreases j
  {
    hide Do, Enabled, PurgeIsSafe, Inv;
    RunKeepsInv(states, steps, i);
    DurableWithin(states[i]);
    if i < j {
      DurableStays(states, steps, i, j - 1, n);
      RunKeepsInv(states, steps, j - 1);
      assert Moves(states[j - 1], steps[j - 1], states[j]);
      DurableStep(states[j - 1], steps[j - 1], n);
    }
  }

  // ---- every channel and callback once, in order ----

  /** Batches that asked to be told, in the order of introduction, wherever their channel is now. */
  function Channels(s: State): seq<nat> {
    Batches(s.closed) + TakenAcks(s.flush) + s.pendingAcks
  }

  function Callbacks(s: State): seq<nat> {
    s.fired + s.carried + TakenCalls(s.flush) + s.pendingCalls
  }

  lemma {:induction false} ToldOnce(s: State)
    requires AckInv(s)
    ensures Increasing(Channels(s)) && Increasing(Callbacks(s))
    ensures forall b: nat :: Acknowledged(s, b) ==> 0 < b <= s.durable
  {
    forall b: nat | Acknowledged(s, b)
      ensures 0 < b <= s.durable
    {
      AcknowledgedIsDurable(s, b);
      if b !in s.fired {
        var k :| 0 <= k < |s.closed| && s.closed[k] == Ack(b, true);
        assert Batches(s.closed)[k] == b;
      }
    }
  }

  /** In every reachable state no batch is listed twice, the order is that of introduction, and
      whoever was told of success was told of a batch that a crash keeps. */
  lemma {:induction false} ToldOnceInOrder(states: seq<State>, steps: seq<Step>, i: nat)
    requires IsRun(states, steps) && i < |states| && states[0] == INITIAL
    ensures Increasing(Channels(states[i])) && Increasing(Callbacks(states[i]))
    ensures forall b: nat :: Acknowledged(states[i], b) ==> 0 < b <= states[i].durable <= |states[i].log|
  {
    RunKeepsInv(states, steps, i);
    hide *;
    DurableWithin(states[i]);
    AcksHold(states[i]);
    ToldOnce(states[i]);
  }

  lemma {:induction false} AcksHold(s: State)
    requires Inv(s)
    ensures AckInv(s)
  {
  }

  lemma {:induction false} CommitLists(s: State)
    requires CanCommit(s)
    ensures Channels(DoCommit(s)) == Channels(s) && Callbacks(DoCommit(s)) == Callbacks(s)
  {
    BatchesClosing(s.closed, s.flush.acks, true);
  }

  lemma {:induction false} UnnoticedLists(s: State)
    requires CanCommit(s)
    ensures Channels(DoCommitUnnoticed(s)) == Channels(s) && Callbacks(DoCommitUnnoticed(s)) == Callbacks(s)
  {
    BatchesClosing(s.closed, s.flush.acks, false);
  }

  lemma {:induction false} FailLists(s: State)
    requires s.flush.Flushing?
    ensures Channels(DoFailFlush(s)) == Channels(s) && Callbacks(DoFailFlush(s)) == Callbacks(s)
  {
    BatchesClosing(s.closed, s.flush.acks, false);
  }

  lemma {:induction false} CaptureLists(s: State)
    requires s.flush.Idle?
    ensures Channels(DoCapture(s)) == Channels(s) && Callbacks(DoCapture(s)) == Callbacks(s)
  {
  }

  /** No step loses, repeats or reorders a channel or a callback; only a restart forgets them. */
  lemma {:induction false} StepKeepsLists(s: State, step: Step)
    requires Enabled(s, step) && !Restarts(step)
    ensures
      var t := Do(s, step);
      var n := |s.log| + 1;
      && Channels(t) == (if step.IntroduceBatch? && s.batches[step.id].safe then Channels(s) + [n] else Channels(s))
      && Callbacks(t) == (if step.IntroduceBatch? && s.batches[step.id].callback then Callbacks(s) + [n] else Callbacks(s))
  {
    hide DoPurgeBolt, DoPurgeFiles, AfterBatch, AfterMerge, AfterPersist, Channels, Callbacks, DoCommit, DoCommitUnnoticed, DoFailFlush, DoCapture;
    if step.IntroduceBatch? {
      IntroduceLists(s, step.id);
    } else if step.Commit? {
      CommitLists(s);
    } else if step.CommitUnnoticed? {
      UnnoticedLists(s);
    } else if step.FailFlush? {
      FailLists(s);
    } else if step.Capture? {
      CaptureLists(s);
    } else {
      if step.PurgeBolt? {
        PurgeLists(s, step.keep);
      } else if step.PurgeFiles? {
        PurgeLists(s, 1);
      }
      SameLists(s, Do(s, step));
    }
  }

  lemma {:induction false} IntroduceLists(s: State, id: nat)
    requires id in s.batches
    ensures
      var t, f := DoIntroduceBatch(s, id), s.batches[id];
      && Channels(t) == (if f.safe then Channels(s) + [|s.log| + 1] else Channels(s))
      && Callbacks(t) == (if f.callback then Callbacks(s) + [|s.log| + 1] else Callbacks(s))
  {
  }

  lemma {:induction false} PurgeLists(s: State, keep: nat)
    ensures
      && var t := DoPurgeBolt(s, keep);
         t.closed == s.closed && t.fired == s.fired && t.carried == s.carried && t.flush == s.flush
         && t.pendingAcks == s.pendingAcks && t.pendingCalls == s.pendingCalls
    ensures
      && var t := DoPurgeFiles(s);
         t.closed == s.closed && t.fired == s.fired && t.carried == s.carried && t.flush == s.flush
         && t.pendingAcks == s.pendingAcks && t.pendingCalls == s.pendingCalls
  {
  }

  lemma {:induction false} SameLists(s: State, t: State)
    requires t.closed == s.closed && t.fired == s.fired && t.carried == s.carried
    requires t.pendingAcks == s.pendingAcks && t.pendingCalls == s.pendingCalls
    requires TakenAcks(t.flush) == TakenAcks(s.flush) && TakenCalls(t.flush) == TakenCalls(s.flush)
    ensures Channels(t) == Channels(s) && Callbacks(t) == Callbacks(s)
  {
  }

  // ---- segments ----

  /** A segment id keeps its documents and its deletes only grow while the process lives. */
  lemma {:induction false} DeletesOnlyGrow(s: State, step: Step, i: nat, j: nat)
    requires Inv(s) && Enabled(s, step) && !Restarts(step)
    requires i < |s.root.segments| && j < |Do(s, step).root.segments|
    requires s.root.segments[i].id == Do(s, step).root.segments[j].id
    ensures s.root.segments[i].docs == Do(s, step).root.segments[j].docs
    ensures s.root.segments[i].deleted <= Do(s, step).root.segments[j].deleted
  {
    var t := Do(s, step);
    var added := StepEvolves(s, step);
    hide *;
    FindInRoot(s, i);
    NotReserved(s, i);
    assert s.root.segments[i].id !in added;
    EvolvedAt(s.root.segments, t.root.segments, added, i, j);
  }

  lemma {:induction false} EvolvedAt(before: seq<SegmentSnapshot>, after: seq<SegmentSnapshot>, added: set<nat>, i: nat, j: nat)
    requires Evolves(before, after, added) && i < |before| && j < |after| && before[i].id == after[j].id && after[j].id !in added
    requires FindSegment(before, before[i].id) == Some(before[i])
    ensures before[i].docs == after[j].docs && before[i].deleted <= after[j].deleted
  {
    assert EvolvedFrom(before, after[j]);
  }

  lemma {:induction false} FindInRoot(s: State, i: nat)
    requires Inv(s) && i < |s.root.segments|
    ensures FindSegment(s.root.segments, s.root.segments[i].id) == Some(s.root.segments[i])
  {
    hide IdsInv, BatchesInv, MergerInv, FlushInv, BoltInv, FileInv, AckInv;
    FindAt(s.root.segments, i);
  }

  lemma {:induction false} NotReserved(s: State, i: nat)
    requires Inv(s) && i < |s.root.segments|
    ensures s.root.segments[i].id !in Reserved(s)
  {
    hide RootInv, BatchesInv, MergerInv, FlushInv, BoltInv, FileInv, AckInv;
    assert s.root.segments[i].id in Ids(s.root.segments);
  }

  lemma {:induction false} StepEvolves(s: State, step: Step) returns (added: set<nat>)
    requires Inv(s) && Enabled(s, step) && !Restarts(step)
    ensures added <= Reserved(s) && Evolves(s.root.segments, Do(s, step).root.segments, added)
  {
    hide RootInv, IdsInv, BatchesInv, MergerInv, FlushInv, BoltInv, FileInv, AckInv, Evolves, AfterBatch, AfterMerge, AfterPersist;
    EvolvesHere(s);
    match step {
      case IntroduceBatch(id) => added := {id}; IntroduceBatchRoot(s, id);
      case IntroduceFileMerge => added := {s.merger.out}; FileMergeRoot(s);
      case IntroduceMemoryMerge => added := {s.flush.phase.out}; MemoryMergeRoot(s);
      case SwapIn => added := {}; SwapInRoot(s);
      case _ => added := {};
    }
  }

  // ---- files ----

  /** Every file that a snapshot kept in bolt lists exists; so do the root's, and those that an
      open backup scheduled. */
  lemma {:induction false} FilesExist(states: seq<State>, steps: seq<Step>, i: nat)
    requires IsRun(states, steps) && i < |states| && states[0] == INITIAL
    ensures
      var s := states[i];
      && BoltFiles(s.bolt) <= s.files.Keys && FileIds(s.root.segments) <= s.files.Keys
      && (forall k | 0 <= k < |s.readers| :: s.readers[k].files <= s.files.Keys)
      && (s.orphans == {} && s.flush.Idle? ==> FileIds(s.root.segments) <= s.ineligible + NewestFiles(s.bolt))
  {
    RunKeepsInv(states, steps, i);
    var s := states[i];
    hide RootInv, IdsInv, BatchesInv, MergerInv, FlushInv, AckInv;
    forall e | e in s.bolt
      ensures s.bolt[e].Files() <= s.files.Keys
    {
      RecordFilesAre(s, s.bolt[e], s.upTo[e]);
    }
  }

  /** The newest bolt snapshot survives every purge, and opening the index loads it. */
  lemma {:induction false} NewestLoadsAfterRun(states: seq<State>, steps: seq<Step>, i: nat)
    requires IsRun(states, steps) && i < |states| && states[0] == INITIAL && states[i].bolt != map[]
    ensures
      var s, e := states[i], Max(states[i].bolt.Keys);
      && s.durable <= |s.log| && Loadable(s.bolt[e], s.files)
      && Reopen(s, s.bolt, s.durable).root.epoch == e
      && Represents(Reopen(s, s.bolt, s.durable).root.segments, s.bolt[e].internal, Replay(s.log[..s.durable]))
  {
    RunKeepsInv(states, steps, i);
    NewestReopens(states[i]);
  }

  lemma {:induction false} NewestReopens(s: State)
    requires Inv(s) && s.bolt != map[]
    ensures
      var e := Max(s.bolt.Keys);
      && s.durable <= |s.log| && Loadable(s.bolt[e], s.files)
      && Reopen(s, s.bolt, s.durable).root.epoch == e
      && Represents(Reopen(s, s.bolt, s.durable).root.segments, s.bolt[e].internal, Replay(s.log[..s.durable]))
  {
    hide RootInv, IdsInv, BatchesInv, MergerInv, FlushInv, FileInv, AckInv, Reopen, Represents;
    assert Openable(s, s.bolt, s.durable);
    ReopenedRoot(s, s.bolt, s.durable);
  }
}
