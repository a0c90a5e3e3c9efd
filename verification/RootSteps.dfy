/** What replacing the root does to everything that was captured from earlier roots. */
module RootSteps {
  import opened Segments
  import opened Snapshots
  import opened MergeContents
  import opened Introducer
  import opened Store
  import Merger
  import opened Protocol
  import opened ProtocolInvariant

  /** Segments keep their documents and only gain deletes; others are new. */
  ghost predicate Evolves(before: seq<SegmentSnapshot>, after: seq<SegmentSnapshot>, added: set<nat>) {
    forall i | 0 <= i < |after| :: after[i].id in added || EvolvedFrom(before, after[i])
  }

  ghost predicate EvolvedFrom(before: seq<SegmentSnapshot>, s: SegmentSnapshot) {
    match FindSegment(before, s.id)
    case Some(was) => was.docs == s.docs && was.deleted <= s.deleted
    case None => false
  }

  lemma {:induction false} FoundAt(segments: seq<SegmentSnapshot>, id: nat) returns (i: nat)
    requires FindSegment(segments, id).Some?
    ensures i < |segments| && segments[i] == FindSegment(segments, id).value && segments[i].id == id
  {
    var s := FindSegment(segments, id).value;
    i :| 0 <= i < |segments| && segments[i] == s;
  }

  lemma {:induction false} EarlierEvolves(before: seq<SegmentSnapshot>, after: seq<SegmentSnapshot>, added: set<nat>, c: SegmentSnapshot)
    requires Evolves(before, after, added) && EarlierState(before, c) && c.id !in added
    ensures EarlierState(after, c)
  {
    if FindSegment(after, c.id).Some? {
      var i := FoundAt(after, c.id);
      assert EvolvedFrom(before, after[i]);
    }
  }

  lemma {:induction false} KeepEarlier(s: State, t: State, segments: seq<SegmentSnapshot>, added: set<nat>)
    requires Earlier(s, segments) && Evolves(s.root.segments, t.root.segments, added)
    requires added <= Reserved(s) && Reserved(t) <= Reserved(s)
    requires forall id <- s.docsOf :: id in t.docsOf && t.docsOf[id] == s.docsOf[id]
    ensures Earlier(t, segments)
  {
    forall i | 0 <= i < |segments|
      ensures EarlierState(t.root.segments, segments[i])
    {
      assert segments[i].id in Ids(segments);
      EarlierEvolves(s.root.segments, t.root.segments, added, segments[i]);
    }
  }

  lemma {:induction false} EvolvesSame(segments: seq<SegmentSnapshot>)
    requires DistinctIds(segments)
    ensures Evolves(segments, segments, {})
  {
    forall i | 0 <= i < |segments|
      ensures EvolvedFrom(segments, segments[i])
    {
      FindAt(segments, i);
    }
  }

  lemma {:induction false} BatchEvolves(segments: seq<SegmentSnapshot>, b: SegmentIntroduction)
    requires SegmentsOk(segments) && ObsoletesFor(segments, b) && b.id !in Ids(segments)
    ensures Evolves(segments, SegmentsAfterBatch(segments, b), {b.id})
    ensures SegmentsOk(SegmentsAfterBatch(segments, b))
    ensures Ids(SegmentsAfterBatch(segments, b)) <= Ids(segments) + (if b.data == [] then {} else {b.id})
  {
    SurvivorsOk(segments, b);
    var survivors, after := Survivors(segments, b), SegmentsAfterBatch(segments, b);
    forall i | 0 <= i < |survivors|
      ensures EvolvedFrom(segments, survivors[i]) && survivors[i].id in Ids(segments)
    {
      assert survivors[i] in survivors;
      var k :| 0 <= k < |segments| && survivors[i] == Obsoleted(segments[k], b);
      FindAt(segments, k);
    }
    assert forall i | 0 <= i < |survivors| :: after[i] == survivors[i];
  }

  lemma {:induction false} PersistEvolves(segments: seq<SegmentSnapshot>, persisted: map<nat, seq<Entry>>)
    requires SegmentsOk(segments) && FaithfulPersist(segments, persisted)
    ensures Evolves(segments, SegmentsAfterPersist(segments, persisted), {})
    ensures SegmentsOk(SegmentsAfterPersist(segments, persisted))
    ensures Ids(SegmentsAfterPersist(segments, persisted)) == Ids(segments)
  {
    var after := SegmentsAfterPersist(segments, persisted);
    forall i | 0 <= i < |segments|
      ensures EvolvedFrom(segments, after[i]) && after[i].id == segments[i].id && after[i].Ok()
    {
      FindAt(segments, i);
    }
    assert forall id :: id in Ids(after) <==> id in Ids(segments);
  }

  /** A segment after a merge is one that stayed, or the new one. */
  ghost predicate MergeShape(segments: seq<SegmentSnapshot>, inputs: seq<SegmentSnapshot>, out: nat, s: SegmentSnapshot) {
    || (s in segments && s.id in Ids(segments) - Ids(inputs))
    || (s.id == out && s.docs == Segments.Merged(inputs) && s.file)
  }

  lemma {:induction false} MergeShapes(segments: seq<SegmentSnapshot>, m: SegmentMerge, inputs: seq<SegmentSnapshot>, out: nat)
    requires SegmentsOk(segments) && TaskFor(m, inputs, out) && EarlierStates(segments, inputs) && out !in Ids(segments)
    ensures SegmentsOk(SegmentsAfterMerge(segments, m))
    ensures forall i | 0 <= i < |SegmentsAfterMerge(segments, m)| ::
              MergeShape(segments, inputs, out, SegmentsAfterMerge(segments, m)[i])
    ensures Skipped(segments, m) ==> SegmentsAfterMerge(segments, m) == Kept(segments, Ids(inputs))
  {
    MergeKeepsOk(segments, m, [inputs]);
    KeptShape(segments, m.history.Keys);
    NewShape(segments, m, inputs, out);
    Merger.FlatOne(inputs);
    hide EarlierStates, SegmentsOk, Kept, NewSegments, MergeShape;
    var kept, news, after := Kept(segments, m.history.Keys), NewSegments(segments, m, 1), SegmentsAfterMerge(segments, m);
    forall i | 0 <= i < |after|
      ensures MergeShape(segments, inputs, out, after[i])
    {
      if i < |kept| {
        IsKept(segments, inputs, out, kept[i]);
      } else {
        IsNew(segments, inputs, out, news[i - |kept|]);
      }
    }
  }

  lemma {:induction false} IsKept(segments: seq<SegmentSnapshot>, inputs: seq<SegmentSnapshot>, out: nat, s: SegmentSnapshot)
    requires s in segments && s.id in Ids(segments) - Ids(inputs)
    ensures MergeShape(segments, inputs, out, s)
  {
  }

  lemma {:induction false} IsNew(segments: seq<SegmentSnapshot>, inputs: seq<SegmentSnapshot>, out: nat, s: SegmentSnapshot)
    requires s.id == out && s.docs == Segments.Merged(inputs) && s.file
    ensures MergeShape(segments, inputs, out, s)
  {
  }

  lemma {:induction false} KeptShape(segments: seq<SegmentSnapshot>, gone: set<nat>)
    requires SegmentsOk(segments)
    ensures forall i | 0 <= i < |Kept(segments, gone)| ::
              Kept(segments, gone)[i] in segments && Kept(segments, gone)[i].id in Ids(segments) - gone
  {
    KeptOk(segments, gone);
    hide Kept, SegmentsOk;
    var kept := Kept(segments, gone);
    forall i | 0 <= i < |kept|
      ensures kept[i] in segments && kept[i].id in Ids(segments) - gone
    {
      assert kept[i] in kept && kept[i].id in Ids(kept);
    }
  }

  lemma {:induction false} NewShape(segments: seq<SegmentSnapshot>, m: SegmentMerge, inputs: seq<SegmentSnapshot>, out: nat)
    requires TaskFor(m, inputs, out)
    ensures forall i | 0 <= i < |NewSegments(segments, m, 1)| ::
              && NewSegments(segments, m, 1)[i].id == out && NewSegments(segments, m, 1)[i].docs == Segments.Merged(inputs)
              && NewSegments(segments, m, 1)[i].file
  {
    hide NewDeleted, BuiltFrom;
    assert NewSegments(segments, m, 0) == [];
  }

  lemma {:induction false} MergeEvolves(segments: seq<SegmentSnapshot>, m: SegmentMerge, inputs: seq<SegmentSnapshot>, out: nat)
    requires SegmentsOk(segments) && TaskFor(m, inputs, out) && EarlierStates(segments, inputs) && out !in Ids(segments)
    ensures Evolves(segments, SegmentsAfterMerge(segments, m), {out})
    ensures Ids(SegmentsAfterMerge(segments, m)) <= (Ids(segments) - Ids(inputs)) + {out}
    ensures Skipped(segments, m) ==> out !in Ids(SegmentsAfterMerge(segments, m))
  {
    MergeShapes(segments, m, inputs, out);
    KeptOk(segments, Ids(inputs));
    var after := SegmentsAfterMerge(segments, m);
    forall i | 0 <= i < |after|
      ensures after[i].id == out || EvolvedFrom(segments, after[i])
    {
      assert MergeShape(segments, inputs, out, after[i]);
      if after[i].id != out {
        var k :| 0 <= k < |segments| && segments[k] == after[i];
        FindAt(segments, k);
      }
    }
  }

  // ---- records ----

  lemma {:induction false} RecordFrame(s: State, t: State, record: Record, n: nat)
    requires RecordOk(s, record, n)
    requires forall id <- record.segments :: id in t.files && t.files[id] == s.files[id]
    requires n <= |t.log| && t.log[..n] == s.log[..n]
    ensures RecordOk(t, record, n)
  {
    assert Loadable(record, t.files);
    assert SegmentsIn(record, t.files) == SegmentsIn(record, s.files);
  }

  lemma {:induction false} RecordFilesAre(s: State, record: Record, n: nat)
    requires RecordOk(s, record, n)
    ensures record.Files() == record.segments.Keys && record.Files() <= s.files.Keys
  {
  }

  /** Files only grew and the log was only extended. */
  ghost predicate Extends(s: State, t: State) {
    && (forall id <- s.files :: id in t.files && t.files[id] == s.files[id])
    && (forall id <- s.docsOf :: id in t.docsOf && t.docsOf[id] == s.docsOf[id])
    && s.log <= t.log
  }

  ghost predicate RecordsOk(s: State) {
    forall e <- s.bolt :: e in s.upTo && RecordOk(s, s.bolt[e], s.upTo[e])
  }

  lemma {:induction false} KeepRecords(s: State, t: State)
    requires RecordsOk(s) && Extends(s, t) && t.bolt == s.bolt && t.upTo == s.upTo
    ensures RecordsOk(t)
  {
    forall e | e in t.bolt
      ensures RecordOk(t, t.bolt[e], t.upTo[e])
    {
      RecordFrame(s, t, s.bolt[e], s.upTo[e]);
    }
  }

  lemma {:induction false} KeepBolt(s: State, t: State)
    requires BoltInv(s) && Extends(s, t)
    requires t.bolt == s.bolt && t.upTo == s.upTo && t.durable == s.durable && s.root.epoch <= t.root.epoch
    requires t.root == s.root || t.root.epoch !in s.bolt
    ensures BoltInv(t)
  {
    assert RecordsOk(s);
    KeepRecords(s, t);
  }

  lemma {:induction false} KeepMerger(s: State, t: State, added: set<nat>)
    requires MergerInv(s) && t.merger == s.merger && Extends(s, t)
    requires Evolves(s.root.segments, t.root.segments, added) && added <= Reserved(s) && Reserved(t) <= Reserved(s)
    requires Ids(t.root.segments) <= Ids(s.root.segments) + added
    requires MergerOut(s.merger) * s.ineligible <= t.ineligible
    ensures MergerInv(t)
  {
    if !s.merger.NotMerging? {
      KeepEarlier(s, t, s.merger.snapshot, added);
    }
  }

  /** Ids handed out since were not in use. */
  ghost predicate ReservesNew(s: State, t: State) {
    forall id <- Reserved(t) :: id in Reserved(s) || id !in s.docsOf
  }

  lemma {:induction false} KeepStandIn(s: State, t: State, f: Flush, segments: seq<SegmentSnapshot>)
    requires f.Flushing? && StandIn(s, f, segments) && IdsInv(s) && Extends(s, t) && ReservesNew(s, t)
    ensures StandIn(t, f, segments)
  {
    assert t.log[..f.upTo] == s.log[..f.upTo];
    assert forall id <- Ids(segments) :: id in s.docsOf;
  }

  lemma {:induction false} KeepReady(s: State, t: State, f: Flush, record: Record, added: set<nat>)
    requires f.Flushing? && ReadyToCommit(s, f, record, added) && IdsInv(s) && Extends(s, t) && ReservesNew(s, t)
    requires t.bolt == s.bolt && (f.snapshot.epoch == t.root.epoch ==> f.snapshot.epoch == s.root.epoch)
    ensures ReadyToCommit(t, f, record, added)
  {
    KeepRecord(s, t, f, record);
    hide RecordOk, Extends, IdsInv, RecordSegments, MemorySegments, FileIds;
    assert forall id <- record.Files() :: id in s.docsOf;
  }

  lemma {:induction false} KeepRecord(s: State, t: State, f: Flush, record: Record)
    requires f.Flushing? && RecordOk(s, record, f.upTo) && IdsInv(s) && Extends(s, t)
    ensures RecordOk(t, record, f.upTo) && forall id <- record.Files() :: id in s.docsOf
  {
    RecordFilesAre(s, record, f.upTo);
    hide Record.Files, RecordOk;
    RecordIn(s, record, f.upTo);
    RecordFrame(s, t, record, f.upTo);
  }

  lemma {:induction false} RecordIn(s: State, record: Record, n: nat)
    requires RecordOk(s, record, n)
    ensures n <= |s.log| && record.segments.Keys <= s.files.Keys
  {
  }

  lemma {:induction false} KeepPhase(s: State, t: State, f: Flush)
    requires f.Flushing? && PhaseOk(s, f) && Extends(s, t)
    requires IdsInv(s) && ReservesNew(s, t)
    requires s.root.epoch <= t.root.epoch && t.bolt == s.bolt
    requires f.snapshot.epoch == t.root.epoch ==> f.snapshot.epoch == s.root.epoch
    requires FlushOut(f) * s.ineligible <= t.ineligible
    ensures PhaseOk(t, f)
  {
    hide IdsInv, StandIn, ReadyToCommit, ReservesNew;
    match f.phase
    case Captured(_) =>
    case MergedInMemory(out, task) =>
    case Equivalent(segments) =>
      KeepStandIn(s, t, f, segments);
    case Written(record, added) =>
      KeepReady(s, t, f, record, added);
    case Swapped(record, added) =>
      KeepReady(s, t, f, record, added);
  }

  lemma {:induction false} KeepSnapshot(s: State, t: State, added: set<nat>)
    requires s.flush.Flushing? && SnapshotOk(s, s.flush) && t.flush == s.flush && Extends(s, t)
    requires Evolves(s.root.segments, t.root.segments, added) && added <= Reserved(s) && Reserved(t) <= Reserved(s)
    requires s.root.epoch <= t.root.epoch && t.bolt == s.bolt && t.durable == s.durable
    requires t.root == s.root || s.root.epoch < t.root.epoch
    requires FileIds(t.root.segments) <= t.ineligible + FileIds(s.flush.snapshot.segments) + SwappedFiles(s.flush)
    ensures SnapshotOk(t, t.flush)
  {
    KeepEarlier(s, t, s.flush.snapshot.segments, added);
    assert t.log[..s.flush.upTo] == s.log[..s.flush.upTo];
  }

  lemma {:induction false} KeepFlush(s: State, t: State, added: set<nat>)
    requires FlushInv(s) && IdsInv(s) && t.flush == s.flush && Extends(s, t)
    requires Evolves(s.root.segments, t.root.segments, added) && added <= Reserved(s) && Reserved(t) <= Reserved(s)
    requires s.root.epoch <= t.root.epoch && t.bolt == s.bolt && t.durable == s.durable
    requires t.root == s.root || s.root.epoch < t.root.epoch
    requires s.flush.Flushing? ==>
               FileIds(t.root.segments) <= t.ineligible + FileIds(s.flush.snapshot.segments) + SwappedFiles(s.flush)
    requires FlushOut(s.flush) * s.ineligible <= t.ineligible
    ensures FlushInv(t)
  {
    if s.flush.Flushing? {
      KeepSnapshot(s, t, added);
      KeepPhase(s, t, s.flush);
    }
  }

  lemma {:induction false} KeepBatches(s: State, t: State)
    requires BatchesInv(s) && Extends(s, t) && t.batches.Keys <= s.batches.Keys
    requires forall id <- t.batches :: t.batches[id] == s.batches[id]
    ensures BatchesInv(t)
  {
  }

  lemma {:induction false} KeepFiles(s: State, t: State)
    requires FileInv(s) && Extends(s, t)
    requires t.bolt == s.bolt && t.flush == s.flush && t.orphans == s.orphans && t.readers == s.readers
    requires FileIds(t.root.segments) <= t.files.Keys
    requires FileIds(t.root.segments) <= t.ineligible + NewestFiles(s.bolt) + SwappedFiles(s.flush) + s.orphans
    ensures FileInv(t)
  {
  }

  lemma {:induction false} KeepAcks(s: State, t: State)
    requires AckInv(s) && t.flush == s.flush && t.closed == s.closed && t.fired == s.fired && t.carried == s.carried
    requires t.pendingAcks == s.pendingAcks && t.pendingCalls == s.pendingCalls && t.durable == s.durable && t.log == s.log
    ensures AckInv(t)
  {
  }

  lemma {:induction false} SameDisk(s: State, t: State)
    requires t.files == s.files && t.docsOf == s.docsOf && t.log == s.log
    ensures Extends(s, t)
  {
  }

  lemma {:induction false} KeepRoot(s: State, t: State)
    requires RootInv(s) && t.root == s.root && t.nextEpoch == s.nextEpoch && t.docsOf == s.docsOf && t.log == s.log
    ensures RootInv(t)
  {
  }

  lemma {:induction false} KeepIds(s: State, t: State)
    requires IdsInv(s) && t.root == s.root && t.docsOf == s.docsOf && t.files == s.files && t.nextSegmentId == s.nextSegmentId
    requires t.batches == s.batches && MergerOut(t.merger) <= MergerOut(s.merger) && FlushOut(t.flush) <= FlushOut(s.flush)
    ensures IdsInv(t) && Reserved(t) <= Reserved(s)
  {
  }

  lemma {:induction false} KeepFilesAtRoot(s: State, t: State)
    requires FileInv(s) && Extends(s, t) && t.root == s.root && s.ineligible <= t.ineligible
    requires t.bolt == s.bolt && SwappedFiles(t.flush) == SwappedFiles(s.flush) && t.orphans == s.orphans && t.readers == s.readers
    ensures FileInv(t)
  {
  }

  // ---- handing out a new id ----

  lemma {:induction false} NewIdKeepsEarlier(s: State, t: State, segments: seq<SegmentSnapshot>)
    requires IdsInv(s) && Earlier(s, segments) && t.root == s.root && Extends(s, t)
    requires Reserved(t) <= Reserved(s) + {s.nextSegmentId + 1}
    ensures Earlier(t, segments)
  {
    forall id | id in Ids(segments)
      ensures id != s.nextSegmentId + 1
    {
      var i :| 0 <= i < |segments| && segments[i].id == id;
      assert segments[i].id in s.docsOf;
    }
  }

  lemma {:induction false} NewIdKeepsMerger(s: State, t: State)
    requires IdsInv(s) && MergerInv(s) && Extends(s, t)
    requires Reserved(t) <= Reserved(s) + {s.nextSegmentId + 1}
    requires t.root == s.root && t.merger == s.merger && s.ineligible <= t.ineligible
    ensures MergerInv(t)
  {
    if !s.merger.NotMerging? {
      NewIdKeepsEarlier(s, t, s.merger.snapshot);
    }
  }

  lemma {:induction false} NewIdKeepsFlush(s: State, t: State)
    requires IdsInv(s) && FlushInv(s) && Extends(s, t)
    requires Reserved(t) <= Reserved(s) + {s.nextSegmentId + 1}
    requires t.root == s.root && t.log == s.log && t.flush == s.flush && t.bolt == s.bolt && t.durable == s.durable
    requires s.ineligible <= t.ineligible
    ensures FlushInv(t)
  {
    if s.flush.Flushing? {
      NewIdKeepsEarlier(s, t, s.flush.snapshot.segments);
      KeepPhase(s, t, s.flush);
    }
  }

}
