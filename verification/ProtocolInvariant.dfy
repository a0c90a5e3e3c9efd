/** What every reachable state of the protocol satisfies. */
module ProtocolInvariant {
  import opened Segments
  import opened Snapshots
  import opened IndexSpec
  import opened Store
  import opened Protocol

  /** The listed segments have the documents that their ids were given. */
  ghost predicate Bound(segments: seq<SegmentSnapshot>, docsOf: map<nat, seq<Entry>>) {
    forall i | 0 <= i < |segments| :: segments[i].id in docsOf && docsOf[segments[i].id] == segments[i].docs
  }

  /** Ids that were handed out and wait to be introduced. */
  function Reserved(s: State): set<nat> {
    s.batches.Keys + MergerOut(s.merger) + FlushOut(s.flush)
  }

  function MergerOut(m: Merging): set<nat> {
    if m.Merged? then {m.out} else {}
  }

  function FlushOut(f: Flush): set<nat> {
    if f.Flushing? && f.phase.MergedInMemory? then {f.phase.out} else {}
  }

  // ---- the root ----

  /** The root represents the map that the introduced batches build, applied one after the other. */
  ghost predicate RootInv(s: State) {
    && s.root.Ok() && s.root.epoch < s.nextEpoch
    && Bound(s.root.segments, s.docsOf)
    && Represents(s.root.segments, s.root.internal, Replay(s.log))
  }

  ghost predicate IdsInv(s: State) {
    && (forall id <- s.docsOf :: id <= s.nextSegmentId)
    && (forall id <- s.files :: id in s.docsOf && s.files[id] == s.docsOf[id])
    && (forall id <- Reserved(s) :: id <= s.nextSegmentId)
    && Reserved(s) !! Ids(s.root.segments)
    && MergerOut(s.merger) !! s.batches.Keys && FlushOut(s.flush) !! s.batches.Keys
    && MergerOut(s.merger) !! FlushOut(s.flush)
  }

  // ---- goroutines that work on an earlier root ----

  ghost predicate BatchOk(f: InFlight, id: nat, docsOf: map<nat, seq<Entry>>) {
    && f.next.id == id && Prepared(f.next, f.batch)
    && (f.next.data != [] ==> id in docsOf && docsOf[id] == f.next.data)
    && forall k <- f.next.obsoletes :: k in docsOf && f.next.obsoletes[k] == DocNumbers(docsOf[k], f.next.ids)
  }

  ghost predicate BatchesInv(s: State) {
    forall id <- s.batches :: BatchOk(s.batches[id], id, s.docsOf)
  }

  /** Segments captured from some earlier root. */
  ghost predicate Earlier(s: State, segments: seq<SegmentSnapshot>) {
    && SegmentsOk(segments) && Bound(segments, s.docsOf)
    && EarlierStates(s.root.segments, segments)
    && Ids(segments) !! Reserved(s)
  }

  /** A merge result that waits for the introducer. */
  ghost predicate OutOk(s: State, inputs: seq<SegmentSnapshot>, out: nat, task: SegmentMerge) {
    && TaskFor(task, inputs, out)
    && out in s.docsOf && s.docsOf[out] == Segments.Merged(inputs)
    && out in s.files && out in s.ineligible
  }

  ghost predicate MergerInv(s: State) {
    s.merger.NotMerging? || (
      && Earlier(s, s.merger.snapshot)
      && s.merger.done <= Ids(s.merger.snapshot) && s.merger.done !! Ids(s.root.segments)
      && (s.merger.Merged? ==>
            && OutOk(s, s.merger.inputs, s.merger.out, s.merger.task)
            && forall i | 0 <= i < |s.merger.inputs| :: s.merger.inputs[i] in s.merger.snapshot))
  }

  // ---- the persister ----

  function SwappedFiles(f: Flush): set<nat> {
    if f.Flushing? && f.phase.Swapped? then f.phase.added else {}
  }

  /** The record loads to the map that the first `n` batches build. */
  ghost predicate RecordOk(s: State, record: Record, n: nat) {
    && n <= |s.log|
    && Loadable(record, s.files) && SegmentsOk(SegmentsIn(record, s.files))
    && Represents(SegmentsIn(record, s.files), record.internal, Replay(s.log[..n]))
  }

  /** A bucket that exists for the epoch says already what the snapshot would write. */
  ghost predicate AlreadyWritten(bolt: map<nat, Record>, snapshot: IndexSnapshot) {
    snapshot.epoch in bolt ==>
      && bolt[snapshot.epoch].segments == RecordSegments(snapshot.segments, {})
      && bolt[snapshot.epoch].internal.Keys <= snapshot.internal.Keys + {TOT_BYTES_WRITTEN}
      && MemorySegments(snapshot.segments) == []
  }

  ghost predicate SnapshotOk(s: State, f: Flush)
    requires f.Flushing?
  {
    && f.snapshot.Ok() && Earlier(s, f.snapshot.segments)
    && s.durable <= f.upTo <= |s.log|
    && Represents(f.snapshot.segments, f.snapshot.internal, Replay(s.log[..f.upTo]))
    && f.snapshot.epoch <= s.root.epoch && (forall e <- s.bolt :: e <= f.snapshot.epoch)
    && (f.snapshot.epoch == s.root.epoch ==> f.snapshot == s.root)
    && AlreadyWritten(s.bolt, f.snapshot)
    && FileIds(f.snapshot.segments) <= s.files.Keys
    && FileIds(s.root.segments) <= s.ineligible + FileIds(f.snapshot.segments) + SwappedFiles(f)
  }

  /** The segments written in place of the captured ones. */
  ghost predicate StandIn(s: State, f: Flush, segments: seq<SegmentSnapshot>)
    requires f.Flushing?
  {
    && SegmentsOk(segments) && Bound(segments, s.docsOf)
    && (forall i | 0 <= i < |segments| :: segments[i].file)
    && Ids(segments) <= s.files.Keys && Ids(segments) !! Reserved(s)
    && f.upTo <= |s.log| && Represents(segments, f.snapshot.internal, Replay(s.log[..f.upTo]))
    && FileIds(f.snapshot.segments) <= Ids(segments)
  }

  ghost predicate PhaseOk(s: State, f: Flush)
    requires f.Flushing?
  {
    match f.phase
    case Captured(_) => true
    case MergedInMemory(out, task) =>
      && OutOk(s, MemorySegments(f.snapshot.segments), out, task)
      && MemorySegments(f.snapshot.segments) != []
    case Equivalent(segments) =>
      StandIn(s, f, segments) && f.snapshot.epoch < s.root.epoch && MemorySegments(f.snapshot.segments) != []
    case Written(record, added) => ReadyToCommit(s, f, record, added)
    case Swapped(record, added) =>
      ReadyToCommit(s, f, record, added) && f.snapshot.epoch < s.root.epoch
  }

  ghost predicate ReadyToCommit(s: State, f: Flush, record: Record, added: set<nat>)
    requires f.Flushing?
  {
    && RecordOk(s, record, f.upTo)
    && FileIds(f.snapshot.segments) + added <= record.Files() && record.Files() !! Reserved(s)
    && record.internal.Keys == f.snapshot.internal.Keys + {TOT_BYTES_WRITTEN}
    && ((f.snapshot.epoch == s.root.epoch || f.snapshot.epoch in s.bolt) ==>
          record.segments == RecordSegments(f.snapshot.segments, {}))
    && (added == {} && f.snapshot.epoch == s.root.epoch ==> MemorySegments(f.snapshot.segments) == [])
  }

  ghost predicate FlushInv(s: State) {
    s.flush.Flushing? ==> SnapshotOk(s, s.flush) && PhaseOk(s, s.flush)
  }

  // ---- bolt and the files ----

  ghost predicate BoltInv(s: State) {
    && (forall e <- s.bolt :: e in s.upTo && e <= s.root.epoch && RecordOk(s, s.bolt[e], s.upTo[e]))
    && (forall e, f | e in s.bolt && f in s.bolt && e <= f :: s.upTo[e] <= s.upTo[f])
    && s.durable <= |s.log|
    && (if s.bolt == map[] then s.durable == 0 else s.durable == s.upTo[Max(s.bolt.Keys)])
    && AlreadyWritten(s.bolt, s.root)
  }

  ghost function NewestFiles(bolt: map<nat, Record>): set<nat> {
    if bolt == map[] then {} else bolt[Max(bolt.Keys)].Files()
  }

  /** Every file segment of the root is on disk and protected: not yet removable, or listed by the
      newest bolt snapshot. Only a commit that failed after the swap leaves exceptions. */
  ghost predicate FileInv(s: State) {
    && FileIds(s.root.segments) <= s.files.Keys
    && FileIds(s.root.segments) <= s.ineligible + NewestFiles(s.bolt) + SwappedFiles(s.flush) + s.orphans
    && forall i | 0 <= i < |s.readers| :: s.readers[i].files <= s.files.Keys * s.readers[i].names
  }

  // ---- acknowledgements ----

  predicate Increasing(a: seq<nat>) {
    forall i, j | 0 <= i < j < |a| :: a[i] < a[j]
  }

  predicate AllIn(a: seq<nat>, low: nat, high: nat) {
    forall i | 0 <= i < |a| :: low < a[i] <= high
  }

  function Batches(acks: seq<Ack>): (r: seq<nat>)
    ensures |r| == |acks|
    ensures forall i | 0 <= i < |r| :: r[i] == acks[i].batch
  {
    seq(|acks|, i requires 0 <= i < |acks| => acks[i].batch)
  }

  function TakenAcks(f: Flush): seq<nat> { if f.Flushing? then f.acks else [] }
  function TakenCalls(f: Flush): seq<nat> { if f.Flushing? then f.calls else [] }

  /** Every batch that asked for it is in one list at one place: each channel is closed once, each
      callback fires at most once, both in the order of introduction, and only for durable batches. */
  ghost predicate AckInv(s: State) {
    && Increasing(Batches(s.closed) + TakenAcks(s.flush) + s.pendingAcks)
    && Increasing(s.fired + s.carried + TakenCalls(s.flush) + s.pendingCalls)
    && AllIn(s.pendingAcks, 0, |s.log|) && AllIn(s.pendingCalls, 0, |s.log|)
    && AllIn(Batches(s.closed), 0, |s.log|) && AllIn(s.carried, 0, |s.log|)
    && (forall i | 0 <= i < |s.closed| && s.closed[i].ok :: s.closed[i].batch <= s.durable)
    && AllIn(s.fired, 0, s.durable)
    && (s.flush.Flushing? ==>
          AllIn(s.flush.acks, 0, s.flush.upTo) && AllIn(s.flush.calls, 0, s.flush.upTo) && AllIn(s.carried, 0, s.flush.upTo))
  }

  ghost predicate Inv(s: State) {
    RootInv(s) && IdsInv(s) && BatchesInv(s) && MergerInv(s) && FlushInv(s) && BoltInv(s) && FileInv(s) && AckInv(s)
  }

  lemma {:induction false} InitialInv()
    ensures Inv(INITIAL)
  {
    EmptyRepresents();
  }
}
