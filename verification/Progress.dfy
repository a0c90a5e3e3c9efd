/** A flush that meets no error: four steps at most, after which everything introduced so far is durable
    and everybody who waited was told so. */
module Progress {
  import opened Snapshots
  import opened IndexSpec
  import opened Store
  import opened Protocol
  import opened ProtocolInvariant
  import opened Runs
  import opened ReopenSteps

  /** What a flush of the whole log has done. */
  ghost predicate FlushedAll(s: State, t: State) {
    && t.flush.Idle? && t.root.internal == s.root.internal && t.log == s.log && t.durable == |s.log|
    && s.root.epoch in t.bolt && t.lastPersisted == s.root.epoch
    && t.pendingAcks == t.pendingCalls == t.carried == []
    && t.fired == s.fired + s.carried + s.pendingCalls
    && s.closed <= t.closed && |t.closed| == |s.closed| + |s.pendingAcks|
    && forall k | 0 <= k < |s.pendingAcks| :: t.closed[|s.closed| + k] == Ack(s.pendingAcks[k], true)
  }

  /** What is on the way until the commit. */
  ghost predicate UnderWay(s: State, t: State) {
    && t.flush.Flushing? && t.flush.snapshot == s.root && t.flush.upTo == |s.log|
    && t.flush.acks == s.pendingAcks && t.flush.calls == s.pendingCalls
    && t.root.internal == s.root.internal && t.log == s.log && t.pendingAcks == t.pendingCalls == []
    && t.carried == s.carried && t.fired == s.fired && t.closed == s.closed
  }

  lemma {:induction false} CaptureStarts(s: State)
    ensures UnderWay(s, DoCapture(s)) && CanWriteFiles(DoCapture(s))
  {
  }

  lemma {:induction false} WritingGoesOn(s: State, t: State)
    requires UnderWay(s, t) && CanWriteFiles(t)
    ensures UnderWay(s, DoWriteFiles(t, "0")) && DoWriteFiles(t, "0").flush.phase.Written?
  {
    hide ToWrite, Excluded, NewFiles, PrepareRecord;
  }

  lemma {:induction false} SwappingGoesOn(s: State, t: State)
    requires UnderWay(s, t) && t.flush.phase.Written?
    ensures UnderWay(s, DoSwapIn(t)) && CanCommit(DoSwapIn(t))
  {
    hide SegmentsAfterPersist, Reopened;
  }

  lemma {:induction false} CommitEnds(s: State, t: State)
    requires UnderWay(s, t) && CanCommit(t)
    ensures FlushedAll(s, DoCommit(t))
  {
    var added := Closing(s.pendingAcks, true);
    var u := DoCommit(t);
    hide WriteOver, Closing;
    assert u.closed == s.closed + added;
    forall k | 0 <= k < |s.pendingAcks|
      ensures u.closed[|s.closed| + k] == Ack(s.pendingAcks[k], true)
    {
      assert u.closed[|s.closed| + k] == added[k];
    }
  }

  lemma {:induction false} ThreeSteps(a: State, i: Step, b: State, j: Step, c: State, k: Step, d: State)
    requires Moves(a, i, b) && Moves(b, j, c) && Moves(c, k, d)
    ensures IsRun([a, b, c, d], [i, j, k])
  {
    hide Moves;
  }

  lemma {:induction false} FourSteps(a: State, i: Step, b: State, j: Step, c: State, k: Step, d: State, l: Step, e: State)
    requires Moves(a, i, b) && Moves(b, j, c) && Moves(c, k, d) && Moves(d, l, e)
    ensures IsRun([a, b, c, d, e], [i, j, k, l])
  {
    hide Moves;
  }

  lemma {:induction false} Steps(s: State, step: Step, t: State)
    requires Enabled(s, step) && t == Do(s, step) && !step.PurgeFiles?
    ensures Moves(s, step, t)
  {
    hide Enabled, Do;
  }

  lemma {:induction false} CaptureMoves(s: State)
    requires s.flush.Idle? && s.root.epoch > s.lastPersisted
    ensures Moves(s, Capture, DoCapture(s))
  {
    hide DoCapture;
    Steps(s, Capture, DoCapture(s));
  }

  lemma {:induction false} WriteMoves(s: State)
    requires CanWriteFiles(s)
    ensures Moves(s, WriteFiles("0"), DoWriteFiles(s, "0"))
  {
    hide DoWriteFiles, CanWriteFiles;
    Steps(s, WriteFiles("0"), DoWriteFiles(s, "0"));
  }

  lemma {:induction false} SwapMoves(s: State)
    requires s.flush.Flushing? && s.flush.phase.Written? && s.flush.phase.added != {}
    ensures Moves(s, SwapIn, DoSwapIn(s))
  {
    hide DoSwapIn;
    Steps(s, SwapIn, DoSwapIn(s));
  }

  lemma {:induction false} CommitMoves(s: State)
    requires CanCommit(s)
    ensures Moves(s, Commit, DoCommit(s))
  {
    hide DoCommit, CanCommit;
    Steps(s, Commit, DoCommit(s));
  }

  /** From every state in which the persister would start there is such a flush. */
  lemma {:induction false} FlushSucceeds(s: State) returns (states: seq<State>, steps: seq<Step>)
    requires s.flush.Idle? && s.root.epoch > s.lastPersisted
    ensures IsRun(states, steps) && states[0] == s && |steps| <= 4 && FlushedAll(s, states[|steps|])
    ensures forall k | 0 <= k < |steps| :: !Restarts(steps[k])
  {
    hide Moves, UnderWay, DoCapture, DoWriteFiles, DoSwapIn, DoCommit, FlushedAll, IsRun, CanWriteFiles;
    var c := DoCapture(s);
    CaptureMoves(s);
    CaptureStarts(s);
    var w := DoWriteFiles(c, "0");
    WriteMoves(c);
    WritingGoesOn(s, c);
    StaysUnderWay(s, w);
    if w.flush.phase.added == {} {
      CommitMoves(w);
      CommitEnds(s, w);
      states, steps := [s, c, w, DoCommit(w)], [Capture, WriteFiles("0"), Commit];
      ThreeSteps(s, Capture, c, WriteFiles("0"), w, Commit, DoCommit(w));
    } else {
      var x := DoSwapIn(w);
      SwapMoves(w);
      SwappingGoesOn(s, w);
      CommitMoves(x);
      CommitEnds(s, x);
      states, steps := [s, c, w, x, DoCommit(x)], [Capture, WriteFiles("0"), SwapIn, Commit];
      FourSteps(s, Capture, c, WriteFiles("0"), w, SwapIn, x, Commit, DoCommit(x));
    }
  }

  lemma {:induction false} StaysUnderWay(s: State, t: State)
    requires UnderWay(s, t)
    ensures t.flush.Flushing?
  {
  }

  lemma {:induction false} InvThroughRun(states: seq<State>, steps: seq<Step>, i: nat)
    requires IsRun(states, steps) && i < |states| && Inv(states[0])
    ensures Inv(states[i])
  {
    hide Inv, Do, Enabled;
    if i > 0 {
      InvThroughRun(states, steps, i - 1);
      assert Moves(states[i - 1], steps[i - 1], states[i]);
      StepKeepsInv(states[i - 1], steps[i - 1]);
    }
  }

  /** A crash right after it loses nothing: what is opened then is the map of all batches introduced. */
  lemma {:induction false} FlushedSurvivesCrash(s: State) returns (states: seq<State>, steps: seq<Step>)
    requires Inv(s) && s.flush.Idle? && s.root.epoch > s.lastPersisted
    ensures IsRun(states, steps) && states[0] == s && 1 <= |steps| <= 5 && steps[|steps| - 1] == CrashAndReopen
    ensures
      var t := states[|steps|];
      t.log == s.log && Inv(t) && t.root.epoch >= s.root.epoch && Represents(t.root.segments, t.root.internal, Replay(s.log))
  {
    hide Inv, FlushedAll, Moves, Reopen;
    states, steps := FlushSucceeds(s);
    var n := |steps|;
    InvThroughRun(states, steps, n);
    var t := states[n];
    CrashAfter(s, t);
    var u := Reopen(t, t.bolt, t.durable);
    Steps(t, CrashAndReopen, u);
    OneMore(states, steps, CrashAndReopen, u);
    states, steps := states + [u], steps + [CrashAndReopen];
  }

  lemma {:induction false} OneMore(states: seq<State>, steps: seq<Step>, step: Step, t: State)
    requires IsRun(states, steps) && Moves(states[|steps|], step, t)
    ensures IsRun(states + [t], steps + [step])
  {
    hide Moves;
  }

  lemma {:induction false} CrashAfter(s: State, t: State)
    requires Inv(t) && FlushedAll(s, t)
    ensures
      var u := Reopen(t, t.bolt, t.durable);
      u.log == s.log && Inv(u) && u.root.epoch >= s.root.epoch && Represents(u.root.segments, u.root.internal, Replay(s.log))
  {
    hide RootInv, IdsInv, BatchesInv, MergerInv, FlushInv, BoltInv, FileInv, AckInv, Reopen, Represents;
    CrashKeepsInv(t);
    NewestReopens(t);
    RootPart(Reopen(t, t.bolt, t.durable));
    assert s.root.epoch <= Max(t.bolt.Keys);
    assert t.log[..|t.log|] == t.log;
  }

  lemma {:induction false} RootPart(s: State)
    requires RootInv(s)
    ensures Represents(s.root.segments, s.root.internal, Replay(s.log))
  {
  }

  /** Behind a commit that was noticed the persister has something to do exactly if the root is not the
      snapshot that it committed. */
  lemma {:induction false} CommittedIsDone(s: State)
    requires FlushInv(s) && CanCommit(s)
    ensures Enabled(DoCommit(s), Capture) <==> s.root != s.flush.snapshot
  {
    hide PhaseOk, Earlier, Represents, AlreadyWritten, WriteEpoch, Closing;
  }
}
