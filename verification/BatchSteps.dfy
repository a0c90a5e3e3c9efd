/** Preparing and introducing batches keeps the invariant. */
module BatchSteps {
  import opened Segments
  import opened Snapshots
  import opened IndexSpec
  import opened Introducer
  import opened Store
  import opened Protocol
  import opened ProtocolInvariant
  import opened RootSteps

  lemma {:induction false} ObsoletesAt(segments: seq<SegmentSnapshot>, ids: set<DocId>, id: nat)
    requires DistinctIds(segments)
    ensures id in Obsoletes(segments, ids) <==> id in Ids(segments)
    ensures FindSegment(segments, id).Some? ==> Obsoletes(segments, ids)[id] == DocNumbers(FindSegment(segments, id).value.docs, ids)
  {
    if segments != [] {
      var n := |segments| - 1;
      ObsoletesAt(segments[..n], ids, id);
      assert Ids(segments) == Ids(segments[..n]) + {segments[n].id};
    }
  }

  lemma {:induction false} PrepareExtends(s: State, batch: Batch, data: seq<Entry>, safe: bool, callback: bool)
    requires IdsInv(s)
    ensures Extends(s, DoPrepare(s, batch, data, safe, callback))
  {
    hide Reserved, Obsoletes;
  }

  lemma {:induction false} ObsoletesBound(s: State, ids: set<DocId>, k: nat)
    requires RootInv(s) && k in Obsoletes(s.root.segments, ids)
    ensures k in s.docsOf && Obsoletes(s.root.segments, ids)[k] == DocNumbers(s.docsOf[k], ids)
  {
    hide Represents, Replay;
    ObsoletesAt(s.root.segments, ids, k);
    var i := FoundAt(s.root.segments, k);
  }

  lemma {:induction false} PreparedBatchOk(s: State, t: State, batch: Batch, data: seq<Entry>, safe: bool, callback: bool)
    requires RootInv(s) && BatchData(data, batch) && t == DoPrepare(s, batch, data, safe, callback) && Extends(s, t)
    ensures BatchOk(t.batches[t.nextSegmentId], t.nextSegmentId, t.docsOf)
  {
    hide RootInv, BatchData, Obsoletes, DocNumbers;
    var f := t.batches[t.nextSegmentId];
    forall k | k in f.next.obsoletes
      ensures k in t.docsOf && f.next.obsoletes[k] == DocNumbers(t.docsOf[k], f.next.ids)
    {
      ObsoletesBound(s, batch.ops.Keys, k);
    }
  }

  lemma {:induction false} PrepareOk(s: State, batch: Batch, data: seq<Entry>, safe: bool, callback: bool)
    requires RootInv(s) && IdsInv(s) && BatchesInv(s) && BatchData(data, batch)
    ensures BatchesInv(DoPrepare(s, batch, data, safe, callback))
    ensures Extends(s, DoPrepare(s, batch, data, safe, callback))
  {
    var t := DoPrepare(s, batch, data, safe, callback);
    PrepareExtends(s, batch, data, safe, callback);
    PreparedBatchOk(s, t, batch, data, safe, callback);
    hide RootInv, IdsInv, BatchData, Obsoletes, DocNumbers, Prepared;
    forall k | k in s.batches && k != t.nextSegmentId
      ensures BatchOk(t.batches[k], k, t.docsOf)
    {
      assert BatchOk(s.batches[k], k, s.docsOf);
    }
  }

  lemma {:induction false} NextIdIsNew(s: State)
    requires RootInv(s) && IdsInv(s)
    ensures s.nextSegmentId + 1 !in Ids(s.root.segments)
  {
    hide Represents;
    forall i | 0 <= i < |s.root.segments|
      ensures s.root.segments[i].id != s.nextSegmentId + 1
    {
      assert s.root.segments[i].id in s.docsOf;
    }
  }

  lemma {:induction false} PrepareIds(s: State, t: State)
    requires IdsInv(s) && t.root == s.root && t.merger == s.merger && t.flush == s.flush && t.files == s.files
    requires t.nextSegmentId == s.nextSegmentId + 1 && t.batches.Keys == s.batches.Keys + {t.nextSegmentId}
    requires t.docsOf.Keys <= s.docsOf.Keys + {t.nextSegmentId} && Extends(s, t)
    requires t.nextSegmentId !in Ids(s.root.segments)
    ensures IdsInv(t)
  {
    assert MergerOut(s.merger) <= Reserved(s) && FlushOut(s.flush) <= Reserved(s);
  }

  lemma {:induction false} PrepareKeepsRoot(s: State, t: State)
    requires RootInv(s) && IdsInv(s) && t.root == s.root && t.log == s.log && t.nextEpoch == s.nextEpoch && Extends(s, t)
    requires t.merger == s.merger && t.flush == s.flush && t.files == s.files
    requires t.nextSegmentId == s.nextSegmentId + 1 && t.batches.Keys == s.batches.Keys + {t.nextSegmentId}
    requires t.docsOf.Keys <= s.docsOf.Keys + {t.nextSegmentId}
    ensures RootInv(t) && IdsInv(t)
  {
    NextIdIsNew(s);
    PrepareIds(s, t);
    hide IdsInv, Represents;
  }

  lemma {:induction false} PrepareKeepsInv(s: State, batch: Batch, data: seq<Entry>, safe: bool, callback: bool)
    requires Inv(s) && BatchData(data, batch)
    ensures Inv(DoPrepare(s, batch, data, safe, callback))
  {
    hide RootInv, IdsInv, BatchesInv, MergerInv, FlushInv, BoltInv, FileInv, AckInv;
    var t := DoPrepare(s, batch, data, safe, callback);
    PrepareOk(s, batch, data, safe, callback);
    PrepareKeepsRoot(s, t);
    NewIdKeepsMerger(s, t);
    NewIdKeepsFlush(s, t);
    KeepBolt(s, t);
    KeepFilesAtRoot(s, t);
    KeepAcks(s, t);
  }

  lemma {:induction false} BatchFiles(segments: seq<SegmentSnapshot>, b: SegmentIntroduction)
    requires SegmentsOk(segments) && ObsoletesFor(segments, b)
    ensures FileIds(SegmentsAfterBatch(segments, b)) <= FileIds(segments) - DroppedByBatch(segments, b)
  {
    SurvivorsOk(segments, b);
    var survivors, after := Survivors(segments, b), SegmentsAfterBatch(segments, b);
    hide Survivors, Obsoleted, DroppedByBatch, ObsoletesFor;
    forall i | 0 <= i < |after| && after[i].file
      ensures after[i].id in FileIds(segments) - DroppedByBatch(segments, b)
    {
      assert after[i] == survivors[i] && survivors[i] in survivors;
      var k :| 0 <= k < |segments| && survivors[i] == Obsoleted(segments[k], b);
      NotDropped(segments, b, k);
    }
  }

  lemma {:induction false} NotDropped(segments: seq<SegmentSnapshot>, b: SegmentIntroduction, k: nat)
    requires DistinctIds(segments) && k < |segments| && Obsoleted(segments[k], b).LiveSize() > 0
    ensures segments[k].id !in DroppedByBatch(segments, b)
    ensures Obsoleted(segments[k], b).id == segments[k].id && Obsoleted(segments[k], b).file == segments[k].file
  {
  }

  lemma {:induction false} IncreasingAppend(a: seq<nat>, n: nat)
    requires Increasing(a) && forall i | 0 <= i < |a| :: a[i] < n
    ensures Increasing(a + [n])
  {
  }

  lemma {:induction false} AcksAfterBatch(s: State, t: State)
    requires AckInv(s) && s.durable <= |s.log|
    requires s.flush.Flushing? ==> s.flush.upTo <= |s.log|
    requires t.flush == s.flush && t.closed == s.closed && t.fired == s.fired && t.carried == s.carried && t.durable == s.durable
    requires |t.log| == |s.log| + 1
    requires t.pendingAcks == s.pendingAcks || t.pendingAcks == s.pendingAcks + [|s.log| + 1]
    requires t.pendingCalls == s.pendingCalls || t.pendingCalls == s.pendingCalls + [|s.log| + 1]
    ensures AckInv(t)
  {
    var n := |s.log| + 1;
    var acks := Batches(s.closed) + TakenAcks(s.flush) + s.pendingAcks;
    var calls := s.fired + s.carried + TakenCalls(s.flush) + s.pendingCalls;
    IncreasingAppend(acks, n);
    IncreasingAppend(calls, n);
    assert acks + [n] == Batches(s.closed) + TakenAcks(s.flush) + (s.pendingAcks + [n]);
    assert calls + [n] == s.fired + s.carried + TakenCalls(s.flush) + (s.pendingCalls + [n]);
  }

  lemma {:induction false} IntroduceBatchIds(s: State, id: nat)
    requires IdsInv(s) && id in s.batches
    requires Ids(DoIntroduceBatch(s, id).root.segments) <= Ids(s.root.segments) + {id}
    ensures IdsInv(DoIntroduceBatch(s, id))
  {
    hide AfterBatch, DroppedByBatch;
    assert id in Reserved(s);
  }

  lemma {:induction false} IntroduceBatchRoot(s: State, id: nat)
    requires RootInv(s) && IdsInv(s) && BatchesInv(s) && id in s.batches
    ensures RootInv(DoIntroduceBatch(s, id)) && IdsInv(DoIntroduceBatch(s, id))
    ensures Evolves(s.root.segments, DoIntroduceBatch(s, id).root.segments, {id})
    ensures Ids(DoIntroduceBatch(s, id).root.segments) <= Ids(s.root.segments) + {id}
    ensures ObsoletesFor(s.root.segments, s.batches[id].next)
  {
    var f, t := s.batches[id], DoIntroduceBatch(s, id);
    assert BatchOk(f, id, s.docsOf) && id in Reserved(s);
    BatchEvolves(s.root.segments, f.next);
    IntroduceBatchIds(s, id);
    BatchRefines(s.root, f.next, Replay(s.log), f.batch);
    assert t.log[..|t.log| - 1] == s.log;
    BatchBound(s.root.segments, f.next, s.docsOf);
    hide Reserved, BatchOk, Bound, IdsInv, Evolves, Represents;
  }

  lemma {:induction false} BatchBound(segments: seq<SegmentSnapshot>, b: SegmentIntroduction, docsOf: map<nat, seq<Entry>>)
    requires SegmentsOk(segments) && ObsoletesFor(segments, b) && b.id !in Ids(segments) && Bound(segments, docsOf)
    requires b.data != [] ==> b.id in docsOf && docsOf[b.id] == b.data
    ensures Bound(SegmentsAfterBatch(segments, b), docsOf)
  {
    BatchEvolves(segments, b);
    hide SegmentsAfterBatch;
    var after := SegmentsAfterBatch(segments, b);
    forall i | 0 <= i < |after|
      ensures after[i].id in docsOf && docsOf[after[i].id] == after[i].docs
    {
      if after[i].id == b.id {
        NewSegmentOfBatch(segments, b, i);
      } else {
        assert EvolvedFrom(segments, after[i]);
        var k := FoundAt(segments, after[i].id);
      }
    }
  }

  lemma {:induction false} NewSegmentOfBatch(segments: seq<SegmentSnapshot>, b: SegmentIntroduction, i: nat)
    requires SegmentsOk(segments) && ObsoletesFor(segments, b) && b.id !in Ids(segments)
    requires i < |SegmentsAfterBatch(segments, b)| && SegmentsAfterBatch(segments, b)[i].id == b.id
    ensures b.data != [] && SegmentsAfterBatch(segments, b)[i] == SegmentSnapshot(b.id, b.data, false, {})
  {
    SurvivorsOk(segments, b);
    var survivors, after := Survivors(segments, b), SegmentsAfterBatch(segments, b);
    assert survivors == after[..|survivors|];
    assert forall k | 0 <= k < |survivors| :: survivors[k].id in Ids(survivors);
  }

  lemma {:induction false} IntroduceBatchKeepsInv(s: State, id: nat)
    requires Inv(s) && id in s.batches
    ensures Inv(DoIntroduceBatch(s, id))
  {
    hide RootInv, IdsInv, BatchesInv, MergerInv, FlushInv, BoltInv, FileInv, AckInv, AfterBatch;
    var f, t := s.batches[id], DoIntroduceBatch(s, id);
    IntroduceBatchRoot(s, id);
    IntroduceBatchFiles(s, id);
    KeepBatches(s, t);
    KeepMerger(s, t, {id});
    KeepFlush(s, t, {id});
    KeepBolt(s, t);
    KeepFiles(s, t);
    AcksAfterBatch(s, t);
  }

  /** What the new root and the shrunken set of ineligible files give the frame lemmas. */
  lemma {:induction false} IntroduceBatchFiles(s: State, id: nat)
    requires RootInv(s) && IdsInv(s) && BatchesInv(s) && BoltInv(s) && FlushInv(s) && FileInv(s) && id in s.batches
    requires ObsoletesFor(s.root.segments, s.batches[id].next)
    ensures
      var t := DoIntroduceBatch(s, id);
      && (MergerOut(s.merger) + FlushOut(s.flush)) * s.ineligible <= t.ineligible
      && (s.flush.Flushing? ==>
            FileIds(t.root.segments) <= t.ineligible + FileIds(s.flush.snapshot.segments) + SwappedFiles(s.flush))
      && FileIds(t.root.segments) <= t.files.Keys
      && FileIds(t.root.segments) <= t.ineligible + NewestFiles(s.bolt) + SwappedFiles(s.flush) + s.orphans
      && t.root.epoch > s.root.epoch && t.root.epoch !in s.bolt
      && s.durable <= |s.log| && (s.flush.Flushing? ==> s.flush.upTo <= |s.log|)
  {
    BatchFiles(s.root.segments, s.batches[id].next);
    assert DroppedByBatch(s.root.segments, s.batches[id].next) <= Ids(s.root.segments);
    hide Represents, SegmentsOk, BatchOk, PhaseOk, Earlier, RecordOk, AlreadyWritten, EvolvedFrom, DroppedByBatch, SegmentsAfterBatch,
      ApplyInternal, Offsets, ObsoletesFor, Bound;
  }
}
