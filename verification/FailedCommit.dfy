/** A run in which a purge follows a commit that failed after the swap: the one case in which files
    of the root are neither marked nor listed by bolt. The persister purges before it retries when
    more files are on disk than `PersisterNapUnderNumFiles` says; for the one file of this run the
    option must be set to a low value, 0 for example, while the default of 1000 takes as many files. */
module FailedCommit {
  import opened Options
  import opened Segments
  import opened Snapshots
  import opened IndexSpec
  import opened Store
  import opened Protocol
  import opened PurgeSteps

  const DOCS := [Entry("a", "x")]
  const BATCH := Batch(map["a" := Some("x")], map[])

  /** Enabled steps, with files purged whether or not that is safe. */
  ghost predicate Follows(s: State, step: Step, t: State) {
    Enabled(s, step) && t == Do(s, step)
  }

  ghost predicate Chain(states: seq<State>, steps: seq<Step>) {
    && |states| == |steps| + 1
    && forall i | 0 <= i < |steps| :: Follows(states[i], steps[i], states[i + 1])
  }

  function Root(file: bool, epoch: nat): IndexSnapshot {
    IndexSnapshot([SegmentSnapshot(1, DOCS, file, {})], [0], map[], epoch)
  }

  const RECORD := Record(map[1 := SegmentRecord(Some(1), {})], map[TOT_BYTES_WRITTEN := "0"])

  /** The batch is introduced; its callback waits. */
  const BEFORE := INITIAL.(root := Root(false, 1), nextEpoch := 2, nextSegmentId := 1,
                           docsOf := map[1 := DOCS], log := [BATCH], pendingCalls := [1])

  lemma {:induction false} Introduced() returns (s: State)
    ensures Follows(INITIAL, Prepare(BATCH, DOCS, false, true), s) && Follows(s, IntroduceBatch(1), BEFORE)
  {
    assert BatchData(DOCS, BATCH) by {
      forall e
        ensures Occurrences(DOCS, e) == if e.id in BATCH.ops && BATCH.ops[e.id] == Some(e.doc) then 1 else 0
      {
        assert Occurrences(DOCS, e) == Occurrences([], e) + (if DOCS[0] == e then 1 else 0);
      }
    }
    s := Do(INITIAL, Prepare(BATCH, DOCS, false, true));
    var t := Do(s, IntroduceBatch(1));
    var segments := [SegmentSnapshot(1, DOCS, false, {})];
    assert segments[..0] == [];
    assert t.root.internal == map[];
    assert t.batches == map[];
  }

  lemma {:induction false} OneSegment(file: bool)
    ensures RecordSegments(Root(file, 1).segments, {}) == map[1 := SegmentRecord(Some(1), {})]
    ensures NewFiles(Root(file, 1).segments, {}) == (if file then {} else {1})
    ensures FileIds(Root(file, 1).segments) == (if file then {1} else {})
  {
    var segments := Root(file, 1).segments;
    assert segments[..0] == [] && segments[0].id == 1;
  }

  const CAPTURED := BEFORE.(flush := Flushing(Root(false, 1), 1, [], [1], Captured(true)), pendingCalls := [])

  lemma {:induction false} CaptureFollows()
    ensures Follows(BEFORE, Capture, CAPTURED)
  {
    hide Root;
    assert Root(false, 1).epoch == 1 by { RootEpoch(); }
  }

  lemma {:induction false} RootEpoch()
    ensures Root(false, 1).epoch == 1 && Root(true, 2).epoch == 2
  {
  }

  const WRITTEN := CAPTURED.(files := map[1 := DOCS],
                             flush := Flushing(Root(false, 1), 1, [], [1], Written(RECORD, {1})))

  lemma {:induction false} WriteFollows()
    ensures Follows(CAPTURED, WriteFiles("0"), WRITTEN)
  {
    OneSegment(false);
    hide RecordSegments, NewFiles;
    assert DoWriteFiles(CAPTURED, "0").files == WRITTEN.files;
  }

  const SWAPPED := WRITTEN.(root := Root(true, 2), nextEpoch := 3,
                            flush := Flushing(Root(false, 1), 1, [], [1], Swapped(RECORD, {1})))

  lemma {:induction false} SwapFollows()
    ensures Follows(WRITTEN, SwapIn, SWAPPED)
  {
    assert Reopened(WRITTEN, {1}) == map[1 := DOCS];
    assert DoSwapIn(WRITTEN).root.segments == Root(true, 2).segments;
  }

  /** The file is written, the reopened segment swapped in, and then the commit fails. */
  const FAILED := BEFORE.(root := Root(true, 2), nextEpoch := 3, files := map[1 := DOCS],
                          pendingCalls := [], carried := [1], orphans := {1})

  lemma {:induction false} FailFollows()
    ensures Follows(SWAPPED, FailFlush, FAILED)
  {
    hide Root;
  }

  /** The purge takes the file that the root reads. */
  const PURGED := FAILED.(files := map[])

  lemma {:induction false} PurgeFollows()
    ensures Follows(FAILED, PurgeFiles, PURGED)
  {
    hide Root;
    assert DoPurgeFiles(FAILED).files == map[];
  }

  const RECAPTURED := PURGED.(flush := Flushing(Root(true, 2), 1, [], [], Captured(true)))

  lemma {:induction false} RecaptureFollows()
    ensures Follows(PURGED, Capture, RECAPTURED)
  {
    hide Root;
    RootEpoch();
  }

  /** The next flush has nothing left to write. */
  const REWRITTEN := PURGED.(flush := Flushing(Root(true, 2), 1, [], [], Written(RECORD, {})))

  lemma {:induction false} RewriteFollows()
    ensures Follows(RECAPTURED, WriteFiles("0"), REWRITTEN)
  {
    OneSegment(true);
    hide RecordSegments, NewFiles;
    assert DoWriteFiles(RECAPTURED, "0").files == map[];
  }

  const COMMITTED := PURGED.(bolt := map[2 := RECORD], upTo := map[2 := 1], durable := 1,
                             lastPersisted := 2, carried := [], fired := [1], orphans := {})

  lemma {:induction false} CommitFollows()
    ensures Follows(REWRITTEN, Commit, COMMITTED)
  {
    hide Root;
    RootEpoch();
    var t := DoCommit(REWRITTEN);
    assert t.closed == [] && t.ineligible == {} && t.fired == [1];
    assert t.bolt == map[2 := RECORD] && t.upTo == map[2 := 1];
  }

  lemma {:induction false} AscendingOne(id: nat)
    ensures Ascending({id}) == [id]
  {
    assert |Ascending({id})| == 1 && Ascending({id})[0] in {id};
  }

  lemma {:induction false} FileMissing(record: Record, files: map<nat, seq<Entry>>, id: nat, epoch: nat)
    requires record.segments.Keys == {id} && record.segments[id].path == Some(id) && id !in files
    ensures LoadSnapshot(record, files, epoch).Failure?
  {
    AscendingOne(id);
    hide Ascending;
    assert LoadSegments([id][..0], record, files) == Success([]);
    assert LoadSegments([id], record, files).Failure?;
  }

  lemma {:induction false} OneEpochFails(bolt: map<nat, Record>, files: map<nat, seq<Entry>>, epoch: nat)
    requires bolt.Keys == {epoch} && LoadSnapshot(bolt[epoch], files, epoch).Failure?
    ensures FirstLoadable(Ascending(bolt.Keys), bolt, files) == None
  {
    AscendingOne(epoch);
    hide Ascending, LoadSnapshot;
    assert FirstLoadable([epoch][..0], bolt, files) == None;
    assert FirstLoadable([epoch], bolt, files) == None;
  }

  lemma {:induction false} NothingLoads()
    ensures FirstLoadable(Ascending(COMMITTED.bolt.Keys), COMMITTED.bolt, COMMITTED.files) == None
  {
    hide Ascending, LoadSnapshot, FirstLoadable;
    FileMissing(RECORD, map[], 1, 2);
    assert COMMITTED.bolt.Keys == {2} && COMMITTED.bolt[2] == RECORD;
    OneEpochFails(COMMITTED.bolt, COMMITTED.files, 2);
  }

  lemma {:induction false} EmptyReopen(s: State)
    requires FirstLoadable(Ascending(s.bolt.Keys), s.bolt, s.files) == None
    ensures Reopen(s, s.bolt, s.durable).root.segments == []
    ensures s.durable == |s.log| ==> Reopen(s, s.bolt, s.durable).log == s.log
  {
    hide FirstLoadable, Ascending, LoadSnapshot, Max;
    var t := Opened(s, IndexSnapshot([], [], map[], 0), s.bolt, s.durable);
    assert Reopen(s, s.bolt, s.durable) == t.(nextSegmentId := 0);
  }

  lemma {:induction false} BatchCounts()
    ensures Replay([BATCH]) != EMPTY
  {
    assert [BATCH][..0] == [];
    assert "a" in Replay([BATCH]).docs;
  }

  lemma {:induction false} LeftoverInRoot()
    ensures !PurgeIsSafe(FAILED)
  {
    assert FAILED.root.segments[0].id in FileIds(FAILED.root.segments);
    assert BoltFiles(FAILED.bolt) == {} && Scheduled(FAILED.readers) == {};
    assert 1 !in Needed(FAILED);
  }

  lemma {:induction false} CrashFollows(s: State) returns (last: State)
    requires FirstLoadable(Ascending(s.bolt.Keys), s.bolt, s.files) == None && s.durable == |s.log|
    ensures Follows(s, CrashAndReopen, last) && last.root.segments == [] && last.log == s.log
  {
    hide *;
    last := Reopen(s, s.bolt, s.durable);
    CrashIs(s);
    EmptyReopen(s);
  }

  lemma {:induction false} CrashIs(s: State)
    ensures Follows(s, CrashAndReopen, Reopen(s, s.bolt, s.durable))
  {
    hide Reopen;
  }

  lemma {:induction false} Join(states: seq<State>, steps: seq<Step>, more: seq<State>, next: seq<Step>)
    requires Chain(states, steps) && Chain(more, next) && states[|states| - 1] == more[0]
    ensures Chain(states + more[1..], steps + next)
  {
    hide Follows;
    var all := states + more[1..];
    forall i | 0 <= i < |steps + next|
      ensures Follows(all[i], (steps + next)[i], all[i + 1])
    {
      var k := i - |steps|;
      if k < 0 {
        assert Follows(states[i], steps[i], states[i + 1]);
      } else {
        assert Follows(more[k], next[k], more[k + 1]);
        assert all[i] == more[k] && all[i + 1] == more[k + 1];
      }
    }
  }

  lemma {:induction false} FromFailure() returns (more: seq<State>, next: seq<Step>)
    ensures |more| == 6 && |next| == 5 && more[0] == FAILED && more[4] == COMMITTED
    ensures next[0] == PurgeFiles && next[4] == CrashAndReopen && more[5].root.segments == []
    ensures Chain(more, next)
  {
    hide Follows, FirstLoadable, Ascending;
    PurgeFollows();
    RecaptureFollows();
    RewriteFollows();
    CommitFollows();
    NothingLoads();
    assert COMMITTED.durable == |COMMITTED.log|;
    hide *;
    var last := CrashFollows(COMMITTED);
    more, next := FiveSteps(FAILED, PURGED, RECAPTURED, REWRITTEN, COMMITTED, last);
  }

  lemma {:induction false} FiveSteps(a: State, b: State, c: State, d: State, e: State, f: State) returns (more: seq<State>, next: seq<Step>)
    requires Follows(a, PurgeFiles, b) && Follows(b, Capture, c) && Follows(c, WriteFiles("0"), d) && Follows(d, Commit, e)
    requires Follows(e, CrashAndReopen, f)
    ensures more == [a, b, c, d, e, f] && next == [PurgeFiles, Capture, WriteFiles("0"), Commit, CrashAndReopen] && Chain(more, next)
  {
    hide Follows;
    more, next := [a, b, c, d, e, f], [PurgeFiles, Capture, WriteFiles("0"), Commit, CrashAndReopen];
  }

  lemma {:induction false} ToldOfTheBatch()
    ensures COMMITTED.fired == [1] && COMMITTED.durable == 1 && Replay(COMMITTED.log) != EMPTY
  {
    BatchCounts();
  }

  /** Files purged when that is not safe: the callback of the batch has fired, and after a crash
      the index is empty. */
  lemma {:induction false} PurgeAfterFailedCommit() returns (states: seq<State>, steps: seq<Step>)
    ensures |steps| == 11 && |states| == 12 && states[0] == INITIAL
    ensures steps[6] == PurgeFiles && !PurgeIsSafe(states[6]) && steps[10] == CrashAndReopen
    ensures states[10].fired == [1] && states[10].durable == 1 && Replay(states[10].log) != EMPTY
    ensures states[11].root.segments == []
    ensures Chain(states, steps)
  {
    hide *;
    ToldOfTheBatch();
    LeftoverInRoot();
    var before, first := ToFailure();
    var more, next := FromFailure();
    Join(before, first, more, next);
    states, steps := before + more[1..], first + next;
    assert states[0] == before[0] && states[6] == before[6] && states[10] == more[4] && states[11] == more[5];
  }

  lemma {:induction false} ToFailure() returns (states: seq<State>, steps: seq<Step>)
    ensures |steps| == 6 && |states| == 7 && states[0] == INITIAL && states[6] == FAILED
    ensures Chain(states, steps)
  {
    var a1 := Introduced();
    CaptureFollows();
    WriteFollows();
    SwapFollows();
    FailFollows();
    hide Follows, CAPTURED, WRITTEN, SWAPPED, FAILED, BEFORE;
    states := [INITIAL, a1, BEFORE, CAPTURED, WRITTEN, SWAPPED, FAILED];
    steps := [Prepare(BATCH, DOCS, false, true), IntroduceBatch(1), Capture, WriteFiles("0"), SwapIn, FailFlush];
  }
}
