/** The snapshot protocol as a transition system: clients preparing batches, the introducer, the
    file merger, the persister with its one-shot flush, the purge, backups, crashes and rollbacks,
    interleaved in any order that the goroutines allow. */
module Protocol {
  import opened Options
  import opened Segments
  import opened Snapshots
  import opened IndexSpec
  import opened Introducer
  import opened Store

  /** A batch waiting for the introducer. */
  datatype InFlight = InFlight(next: SegmentIntroduction, batch: Batch, safe: bool, callback: bool)

  /** The merger goroutine. `done` are the files of inputs already merged away in this round. */
  datatype Merging =
    | NotMerging
    | Planned(snapshot: seq<SegmentSnapshot>, done: set<nat>)
    | Merged(snapshot: seq<SegmentSnapshot>, done: set<nat>, inputs: seq<SegmentSnapshot>, out: nat, task: SegmentMerge)

  /** Where the persister is with the snapshot it captured. */
  datatype Phase =
    | Captured(mayMerge: bool)
    | MergedInMemory(out: nat, task: SegmentMerge)
    | Equivalent(segments: seq<SegmentSnapshot>)
    | Written(record: Record, added: set<nat>)
    | Swapped(record: Record, added: set<nat>)

  /** The persister goroutine: the captured snapshot holds the first `upTo` batches; `acks` and
      `calls` are the batches whose channel and callback it took along. */
  datatype Flush =
    | Idle
    | Flushing(snapshot: IndexSnapshot, upTo: nat, acks: seq<nat>, calls: seq<nat>, phase: Phase)

  /** A persisted channel that was closed, after an error or not. */
  datatype Ack = Ack(batch: nat, ok: bool)

  /** An open backup: the names it scheduled and those of them that were files at the time. */
  datatype Reader = Reader(names: set<nat>, files: set<nat>)

  datatype State = State(
    root: IndexSnapshot, nextEpoch: nat, nextSegmentId: nat,
    batches: map<nat, InFlight>, merger: Merging, flush: Flush,
    pendingAcks: seq<nat>, pendingCalls: seq<nat>, carried: seq<nat>,
    ineligible: set<nat>, eligible: set<nat>, lastPersisted: nat, readers: seq<Reader>,
    // on disk
    files: map<nat, seq<Entry>>, bolt: map<nat, Record>,
    // history: documents of each segment id, batches introduced, batches in each bolt epoch,
    // batches known to be durable, channels closed, callbacks fired, files of failed commits
    docsOf: map<nat, seq<Entry>>, log: seq<Batch>, upTo: map<nat, nat>, durable: nat,
    closed: seq<Ack>, fired: seq<nat>, orphans: set<nat>)

  datatype Step =
    | Prepare(batch: Batch, data: seq<Entry>, safe: bool, callback: bool)
    | IntroduceBatch(id: nat)
    | PlanMerges
    | MergeFiles(inputs: seq<SegmentSnapshot>, task: SegmentMerge)
    | IntroduceFileMerge
    | FinishMerges
    | FailMerge
    | Capture
    | MergeInMemory(task: SegmentMerge)
    | IntroduceMemoryMerge
    | WriteFiles(bytesWritten: string)
    | SwapIn
    | Commit
    | CommitUnnoticed
    | FailFlush
    | MarkEligible(epoch: nat)
    | PurgeBolt(keep: nat)
    | PurgeFiles
    | OpenBackup
    | CloseBackup(reader: nat)
    | CrashAndReopen
    | RollbackAndReopen(to: nat)

  // ---- batches ----

  function Obsoletes(segments: seq<SegmentSnapshot>, ids: set<DocId>): map<nat, set<nat>> {
    if segments == [] then map[] else
      var last := segments[|segments| - 1];
      Obsoletes(segments[..|segments| - 1], ids)[last.id := DocNumbers(last.docs, ids)]
  }

  function DoPrepare(s: State, batch: Batch, data: seq<Entry>, safe: bool, callback: bool): State {
    var id := s.nextSegmentId + 1;
    var next := SegmentIntroduction(id, data, Obsoletes(s.root.segments, batch.ops.Keys), batch.ops.Keys, batch.internalOps);
    s.(nextSegmentId := id,
       batches := s.batches[id := InFlight(next, batch, safe, callback)],
       docsOf := if data == [] then s.docsOf else s.docsOf[id := data])
  }

  function DoIntroduceBatch(s: State, id: nat): State
    requires id in s.batches
  {
    var f := s.batches[id];
    var n := |s.log| + 1;
    s.(root := AfterBatch(s.root, f.next, s.nextEpoch), nextEpoch := s.nextEpoch + 1,
       batches := s.batches - {id},
       ineligible := s.ineligible - DroppedByBatch(s.root.segments, f.next),
       pendingAcks := if f.safe then s.pendingAcks + [n] else s.pendingAcks,
       pendingCalls := if f.callback then s.pendingCalls + [n] else s.pendingCalls,
       log := s.log + [f.batch])
  }

  // ---- file merges ----

  ghost predicate TaskFor(task: SegmentMerge, inputs: seq<SegmentSnapshot>, out: nat) {
    BuiltFrom(task, [inputs]) && task.ids == [out] && task.news == [Some(Segments.Merged(inputs))]
  }

  ghost predicate CanMergeFiles(s: State, inputs: seq<SegmentSnapshot>, task: SegmentMerge) {
    && s.merger.Planned? && inputs != [] && DistinctIds(inputs)
    && (forall i | 0 <= i < |inputs| :: inputs[i] in s.merger.snapshot && inputs[i].file)
    && TaskFor(task, inputs, s.nextSegmentId + 1)
  }

  /** The new file is marked ineligible for removal before it is written. */
  function DoMergeFiles(s: State, inputs: seq<SegmentSnapshot>, task: SegmentMerge): State
    requires s.merger.Planned?
  {
    var out := s.nextSegmentId + 1;
    s.(nextSegmentId := out, ineligible := s.ineligible + {out},
       files := s.files[out := Segments.Merged(inputs)], docsOf := s.docsOf[out := Segments.Merged(inputs)],
       merger := Merging.Merged(s.merger.snapshot, s.merger.done, inputs, out, task))
  }

  predicate Skipped(segments: seq<SegmentSnapshot>, task: SegmentMerge)
    requires |task.news| == |task.ids|
  {
    NewSegments(segments, task, |task.news|) == []
  }

  function IntroduceTask(s: State, task: SegmentMerge): State
    requires |task.news| == |task.ids|
  {
    s.(root := AfterMerge(s.root, task, s.nextEpoch), nextEpoch := s.nextEpoch + 1,
       ineligible := s.ineligible - DroppedByMerge(s.root.segments, task))
  }

  function DoIntroduceFileMerge(s: State): State
    requires s.merger.Merged? && |s.merger.task.news| == |s.merger.task.ids|
  {
    var m := s.merger;
    var t := IntroduceTask(s, m.task);
    t.(ineligible := if Skipped(s.root.segments, m.task) then t.ineligible - {m.out} else t.ineligible,
       merger := Planned(m.snapshot, m.done + Ids(m.inputs)))
  }

  // ---- the persister ----

  function MemorySegments(segments: seq<SegmentSnapshot>): seq<SegmentSnapshot> {
    if segments == [] then [] else
      var n := |segments| - 1;
      if segments[n].file then MemorySegments(segments[..n]) else MemorySegments(segments[..n]) + [segments[n]]
  }

  function FileSegments(segments: seq<SegmentSnapshot>): seq<SegmentSnapshot> {
    if segments == [] then [] else
      var n := |segments| - 1;
      if segments[n].file then FileSegments(segments[..n]) + [segments[n]] else FileSegments(segments[..n])
  }

  const MIN_SEGMENTS_FOR_IN_MEMORY_MERGE := 2

  function DoCapture(s: State): State {
    s.(flush := Flushing(s.root, |s.log|, s.pendingAcks, s.pendingCalls, Captured(true)), pendingAcks := [], pendingCalls := [])
  }

  ghost predicate CanMergeInMemory(s: State, task: SegmentMerge) {
    && s.flush.Flushing? && s.flush.phase == Captured(true)
    && |MemorySegments(s.flush.snapshot.segments)| >= MIN_SEGMENTS_FOR_IN_MEMORY_MERGE
    && TaskFor(task, MemorySegments(s.flush.snapshot.segments), s.nextSegmentId + 1)
  }

  function DoMergeInMemory(s: State, task: SegmentMerge): State
    requires s.flush.Flushing?
  {
    var out := s.nextSegmentId + 1;
    var docs := Segments.Merged(MemorySegments(s.flush.snapshot.segments));
    s.(nextSegmentId := out, ineligible := s.ineligible + {out},
       files := s.files[out := docs], docsOf := s.docsOf[out := docs],
       flush := s.flush.(phase := MergedInMemory(out, task)))
  }

  /** The snapshot to persist in place of the captured one: its file segments and the new one. */
  function EquivalentSegments(snapshot: seq<SegmentSnapshot>, out: nat): seq<SegmentSnapshot> {
    FileSegments(snapshot) + [SegmentSnapshot(out, Segments.Merged(MemorySegments(snapshot)), true, {})]
  }

  function DoIntroduceMemoryMerge(s: State): State
    requires s.flush.Flushing? && s.flush.phase.MergedInMemory?
    requires |s.flush.phase.task.news| == |s.flush.phase.task.ids|
  {
    var p := s.flush.phase;
    IntroduceTask(s, p.task).(
      flush := s.flush.(phase := if Skipped(s.root.segments, p.task) then Captured(false)
                                 else Equivalent(EquivalentSegments(s.flush.snapshot.segments, p.out))))
  }

  predicate CanWriteFiles(s: State) {
    s.flush.Flushing? && (s.flush.phase.Captured? || s.flush.phase.Equivalent?)
  }

  function ToWrite(f: Flush): seq<SegmentSnapshot>
    requires f.Flushing?
  {
    if f.phase.Equivalent? then f.phase.segments else f.snapshot.segments
  }

  /** The ids that the flush leaves to the next one: none when the snapshot is written directly,
      the segments that were not merged when it was merged first. */
  function Excluded(f: Flush): set<nat>
    requires f.Flushing?
  {
    if f.phase.Equivalent? then Ids(FileSegments(f.snapshot.segments)) else {}
  }

  /** Inside the bolt transaction every in-memory segment gets its file. */
  function DoWriteFiles(s: State, bytesWritten: string): State
    requires CanWriteFiles(s)
  {
    var segments, exclude := ToWrite(s.flush), Excluded(s.flush);
    var added := NewFiles(segments, exclude);
    s.(files := map id | id in s.files.Keys + added ::
                  if id in added && id in s.docsOf then s.docsOf[id] else if id in s.files then s.files[id] else [],
       flush := s.flush.(phase := Written(PrepareRecord(segments, s.flush.snapshot.internal, exclude, bytesWritten), added)))
  }

  function Reopened(s: State, ids: set<nat>): map<nat, seq<Entry>> {
    map id | id in ids && id in s.files :: s.files[id]
  }

  function DoSwapIn(s: State): State
    requires s.flush.Flushing? && s.flush.phase.Written?
  {
    var p := s.flush.phase;
    s.(root := AfterPersist(s.root, Reopened(s, p.added), s.nextEpoch), nextEpoch := s.nextEpoch + 1,
       flush := s.flush.(phase := Swapped(p.record, p.added)))
  }

  /** Committing may follow at once when no segment had to be written. */
  predicate CanCommit(s: State) {
    s.flush.Flushing? && (s.flush.phase.Swapped? || (s.flush.phase.Written? && s.flush.phase.added == {}))
  }

  function WriteEpoch(bolt: map<nat, Record>, epoch: nat, record: Record): map<nat, Record> {
    bolt[epoch := if epoch in bolt then WriteOver(bolt[epoch], record) else record]
  }

  function Closing(acks: seq<nat>, ok: bool): (r: seq<Ack>)
    ensures |r| == |acks|
    ensures forall i | 0 <= i < |r| :: r[i] == Ack(acks[i], ok)
  {
    seq(|acks|, i requires 0 <= i < |acks| => Ack(acks[i], ok))
  }

  function DoCommit(s: State): State
    requires CanCommit(s)
  {
    var f := s.flush;
    s.(bolt := WriteEpoch(s.bolt, f.snapshot.epoch, f.phase.record),
       upTo := s.upTo[f.snapshot.epoch := f.upTo], durable := f.upTo,
       ineligible := s.ineligible - f.phase.record.Files(),
       lastPersisted := f.snapshot.epoch,
       closed := s.closed + Closing(f.acks, true),
       fired := s.fired + s.carried + f.calls, carried := [],
       orphans := {}, flush := Idle)
  }

  /** An error after the commit took effect: bolt has the record, but as after any failure waiting
      batches are told of the error, callbacks wait, and no mark is cleared. */
  function DoCommitUnnoticed(s: State): State
    requires CanCommit(s)
  {
    var f := s.flush;
    s.(bolt := WriteEpoch(s.bolt, f.snapshot.epoch, f.phase.record),
       upTo := s.upTo[f.snapshot.epoch := f.upTo], durable := f.upTo,
       closed := s.closed + Closing(f.acks, false), carried := s.carried + f.calls,
       orphans := {}, flush := Idle)
  }

  /** An error anywhere before the commit took effect: waiting batches are told, callbacks are kept
      for the next attempt. Segments that were swapped in already stay in the root. */
  function DoFailFlush(s: State): State
    requires s.flush.Flushing?
  {
    var f := s.flush;
    s.(closed := s.closed + Closing(f.acks, false), carried := s.carried + f.calls,
       orphans := if f.phase.Swapped? then s.orphans + f.phase.added else s.orphans,
       flush := Idle)
  }

  // ---- purging ----

  function Newer(epochs: set<nat>, epoch: nat): set<nat> {
    set e | e in epochs && e > epoch
  }

  /** The newest `keep` epochs in bolt. */
  function Protected(epochs: set<nat>, keep: nat): set<nat> {
    set e | e in epochs && |Newer(epochs, e)| < keep
  }

  function LeftInBolt(bolt: map<nat, Record>, eligible: set<nat>, keep: nat): map<nat, Record> {
    if |bolt| <= keep then bolt else bolt - (eligible - Protected(bolt.Keys, keep))
  }

  function LeftEligible(bolt: map<nat, Record>, eligible: set<nat>, keep: nat): set<nat> {
    if |bolt| <= keep then eligible else eligible * Protected(bolt.Keys, keep)
  }

  function DoPurgeBolt(s: State, keep: nat): State {
    s.(bolt := LeftInBolt(s.bolt, s.eligible, keep), eligible := LeftEligible(s.bolt, s.eligible, keep))
  }

  function BoltFiles(bolt: map<nat, Record>): set<nat> {
    set e, id | e in bolt && id in bolt[e].Files() :: id
  }

  function Scheduled(readers: seq<Reader>): set<nat> {
    set i, id | 0 <= i < |readers| && id in readers[i].names :: id
  }

  /** Files that the purge leaves alone. */
  function Needed(s: State): set<nat> {
    BoltFiles(s.bolt) + s.ineligible + Scheduled(s.readers)
  }

  function Only(files: map<nat, seq<Entry>>, needed: set<nat>): map<nat, seq<Entry>> {
    map id | id in files && id in needed :: files[id]
  }

  function DoPurgeFiles(s: State): State {
    s.(files := Only(s.files, Needed(s)))
  }

  // ---- crash, reopen, rollback ----

  /** The newest epoch that loads. */
  ghost function FirstLoadable(epochs: seq<nat>, bolt: map<nat, Record>, files: map<nat, seq<Entry>>): Option<IndexSnapshot>
    requires forall i | 0 <= i < |epochs| :: epochs[i] in bolt
  {
    if epochs == [] then None else
      var n := |epochs| - 1;
      match LoadSnapshot(bolt[epochs[n]], files, epochs[n])
      case Success(snapshot) => Some(snapshot)
      case Failure(_) => FirstLoadable(epochs[..n], bolt, files)
  }

  /** A new process that loaded a snapshot: new ids start above every file that was on disk, and
      files that no bolt snapshot lists are removed before any goroutine starts. */
  ghost function Opened(s: State, root: IndexSnapshot, bolt: map<nat, Record>, durable: nat): State {
    State(root, root.epoch + 1, if s.files.Keys == {} then 1 else Max(s.files.Keys) + 1,
          map[], NotMerging, Idle, [], [], [],
          {}, bolt.Keys - {root.epoch}, 0, [],
          Only(s.files, BoltFiles(bolt)), bolt,
          Only(s.files, BoltFiles(bolt)), if durable <= |s.log| then s.log[..durable] else s.log, s.upTo, durable, [], [], {})
  }

  /** A new process on what the old one left on disk. */
  ghost function Reopen(s: State, bolt: map<nat, Record>, durable: nat): State {
    match FirstLoadable(Ascending(bolt.Keys), bolt, s.files)
    case Some(snapshot) => Opened(s, snapshot, bolt, durable)
    case None =>
      Opened(s, IndexSnapshot([], [], map[], 0), bolt, durable).(nextSegmentId := 0)
  }

  function UpToEpoch(bolt: map<nat, Record>, to: nat): map<nat, Record> {
    map e | e in bolt && e <= to :: bolt[e]
  }

  // ---- runs ----

  const INITIAL := State(IndexSnapshot([], [], map[], 0), 1, 0, map[], NotMerging, Idle, [], [], [], {}, {}, 0, [],
                         map[], map[], map[], [], map[], 0, [], [], {})

  ghost predicate Enabled(s: State, step: Step) {
    match step
    case Prepare(batch, data, _, _) => BatchData(data, batch)
    case IntroduceBatch(id) => id in s.batches
    case PlanMerges => s.merger.NotMerging?
    case MergeFiles(inputs, task) => CanMergeFiles(s, inputs, task)
    case IntroduceFileMerge => s.merger.Merged? && |s.merger.task.news| == |s.merger.task.ids|
    case FinishMerges => s.merger.Planned?
    case FailMerge => s.merger.Merged?
    case Capture => s.flush.Idle? && s.root.epoch > s.lastPersisted
    case MergeInMemory(task) => CanMergeInMemory(s, task)
    case IntroduceMemoryMerge => s.flush.Flushing? && s.flush.phase.MergedInMemory? && |s.flush.phase.task.news| == |s.flush.phase.task.ids|
    case WriteFiles(_) => CanWriteFiles(s)
    case SwapIn => s.flush.Flushing? && s.flush.phase.Written? && s.flush.phase.added != {}
    case Commit => CanCommit(s)
    case CommitUnnoticed => CanCommit(s)
    case FailFlush => s.flush.Flushing?
    case MarkEligible(epoch) => s.root.epoch != epoch
    case PurgeBolt(keep) => s.flush.Idle? && keep >= 1
    case PurgeFiles => s.flush.Idle?
    case OpenBackup => true
    case CloseBackup(i) => i < |s.readers|
    case CrashAndReopen => true
    case RollbackAndReopen(to) => to in s.bolt && to in s.upTo
  }

  ghost function Do(s: State, step: Step): State
    requires Enabled(s, step)
  {
    match step
    case Prepare(batch, data, safe, callback) => DoPrepare(s, batch, data, safe, callback)
    case IntroduceBatch(id) => DoIntroduceBatch(s, id)
    case PlanMerges => s.(merger := Planned(s.root.segments, {}))
    case MergeFiles(inputs, task) => DoMergeFiles(s, inputs, task)
    case IntroduceFileMerge => DoIntroduceFileMerge(s)
    case FinishMerges => s.(merger := NotMerging, ineligible := s.ineligible - s.merger.done)
    case FailMerge => s.(merger := NotMerging, ineligible := s.ineligible - {s.merger.out})
    case Capture => DoCapture(s)
    case MergeInMemory(task) => DoMergeInMemory(s, task)
    case IntroduceMemoryMerge => DoIntroduceMemoryMerge(s)
    case WriteFiles(bytesWritten) => DoWriteFiles(s, bytesWritten)
    case SwapIn => DoSwapIn(s)
    case Commit => DoCommit(s)
    case CommitUnnoticed => DoCommitUnnoticed(s)
    case FailFlush => DoFailFlush(s)
    case MarkEligible(epoch) => s.(eligible := s.eligible + {epoch})
    case PurgeBolt(keep) => DoPurgeBolt(s, keep)
    case PurgeFiles => DoPurgeFiles(s)
    case OpenBackup => s.(readers := s.readers + [Reader(Ids(s.root.segments), FileIds(s.root.segments))])
    case CloseBackup(i) => s.(readers := s.readers[..i] + s.readers[i + 1..])
    case CrashAndReopen => Reopen(s, s.bolt, s.durable)
    case RollbackAndReopen(to) => Reopen(s, UpToEpoch(s.bolt, to), s.upTo[to])
  }
}
