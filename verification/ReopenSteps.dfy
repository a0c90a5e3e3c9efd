/** Opening the index on what an earlier process, stopped at any step, left on disk. */
module ReopenSteps {
  import opened Options
  import opened Segments
  import opened Snapshots
  import opened IndexSpec
  import opened Store
  import opened Protocol
  import opened ProtocolInvariant
  import opened RootSteps

  lemma {:induction false} LoadedRecord(record: Record, files: map<nat, seq<Entry>>, id: nat)
    requires Loadable(record, files) && id in record.segments
    ensures id in RecordSegments(SegmentsIn(record, files), {})
    ensures RecordSegments(SegmentsIn(record, files), {})[id] == record.segments[id]
  {
    LoadedIds(record, files);
    RecordSegmentsAt(SegmentsIn(record, files), {});
    hide RecordSegments, Ascending;
    var ids := Ascending(record.segments.Keys);
    var i :| 0 <= i < |ids| && ids[i] == id;
    assert SegmentsIn(record, files)[i].id == id;
    assert RecordOf(SegmentsIn(record, files)[i], {}) == record.segments[id];
  }

  /** Writing a loaded snapshot again gives the record that it was loaded from. */
  lemma {:induction false} LoadThenWrite(record: Record, files: map<nat, seq<Entry>>)
    requires Loadable(record, files)
    ensures RecordSegments(SegmentsIn(record, files), {}) == record.segments
  {
    hide *;
    var loaded := SegmentsIn(record, files);
    LoadedIds(record, files);
    RecordSegmentsAt(loaded, {});
    forall id | id in record.segments
      ensures id in RecordSegments(loaded, {}) && RecordSegments(loaded, {})[id] == record.segments[id]
    {
      LoadedRecord(record, files, id);
    }
  }

  lemma {:induction false} LoadedAreFiles(record: Record, files: map<nat, seq<Entry>>)
    requires Loadable(record, files)
    ensures MemorySegments(SegmentsIn(record, files)) == []
    ensures FileIds(SegmentsIn(record, files)) == record.Files()
  {
    hide *;
    var loaded := SegmentsIn(record, files);
    LoadedIds(record, files);
    PathsAreIds(record, files);
    AllLoadedFromFiles(record, files);
    AllFileIds(loaded);
    OnlyFiles(loaded);
  }

  lemma {:induction false} PathsAreIds(record: Record, files: map<nat, seq<Entry>>)
    requires Loadable(record, files)
    ensures record.Files() == record.segments.Keys
  {
  }

  lemma {:induction false} AllLoadedFromFiles(record: Record, files: map<nat, seq<Entry>>)
    requires Loadable(record, files)
    ensures forall i | 0 <= i < |SegmentsIn(record, files)| :: SegmentsIn(record, files)[i].file
  {
  }

  lemma {:induction false} AllFileIds(segments: seq<SegmentSnapshot>)
    requires forall i | 0 <= i < |segments| :: segments[i].file
    ensures FileIds(segments) == Ids(segments)
  {
  }

  lemma {:induction false} OnlyFiles(segments: seq<SegmentSnapshot>)
    requires forall i | 0 <= i < |segments| :: segments[i].file
    ensures MemorySegments(segments) == []
  {
    if segments != [] {
      OnlyFiles(segments[..|segments| - 1]);
    }
  }

  /** What can be opened: every record loads to the map of the batches it covers, newer ones cover
      no fewer, and the newest covers `durable`. */
  ghost predicate Openable(s: State, bolt: map<nat, Record>, durable: nat) {
    && (forall e <- bolt :: e in s.upTo && RecordOk(s, bolt[e], s.upTo[e]))
    && (forall e, f | e in bolt && f in bolt && e <= f :: s.upTo[e] <= s.upTo[f])
    && durable <= |s.log|
    && (if bolt == map[] then durable == 0 else durable == s.upTo[Max(bolt.Keys)])
  }

  lemma {:induction false} LastIsMax(ids: set<nat>)
    requires ids != {}
    ensures Ascending(ids)[|ids| - 1] == Max(ids)
  {
  }

  lemma {:induction false} NewestLoads(s: State, bolt: map<nat, Record>, durable: nat)
    requires Openable(s, bolt, durable) && bolt != map[]
    ensures
      var e := Max(bolt.Keys);
      var segments := SegmentsIn(bolt[e], s.files);
      FirstLoadable(Ascending(bolt.Keys), bolt, s.files)
        == Some(IndexSnapshot(segments, Offsets(segments), bolt[e].internal, e))
  {
    LastIsMax(bolt.Keys);
    var record := bolt[Max(bolt.Keys)];
    LoadSegmentsSucceeds(Ascending(record.segments.Keys), record, s.files);
  }

  /** Files and log as the new process has them. */
  ghost predicate Restarted(s: State, t: State, bolt: map<nat, Record>, durable: nat) {
    durable <= |s.log| && t.log == s.log[..durable] && t.files == Only(s.files, BoltFiles(bolt))
  }

  lemma {:induction false} KeptRecord(s: State, t: State, bolt: map<nat, Record>, durable: nat, e: nat, n: nat)
    requires e in bolt && RecordOk(s, bolt[e], n) && n <= durable && Restarted(s, t, bolt, durable)
    ensures RecordOk(t, bolt[e], n)
    ensures SegmentsIn(bolt[e], t.files) == SegmentsIn(bolt[e], s.files)
  {
    hide Represents, SegmentsOk;
    RecordFilesAre(s, bolt[e], n);
    assert bolt[e].Files() <= BoltFiles(bolt);
    assert t.log[..n] == s.log[..n];
    RecordFrame(s, t, bolt[e], n);
    assert SegmentsIn(bolt[e], t.files) == SegmentsIn(bolt[e], s.files);
  }

  lemma {:induction false} OpenableAt(s: State, bolt: map<nat, Record>, durable: nat, e: nat)
    requires Openable(s, bolt, durable) && e in bolt
    ensures e in s.upTo && RecordOk(s, bolt[e], s.upTo[e]) && s.upTo[e] <= durable <= |s.log|
    ensures e <= Max(bolt.Keys) && s.upTo[Max(bolt.Keys)] == durable
  {
  }

  lemma {:induction false} OpenedRoot(s: State, t: State, record: Record, epoch: nat)
    requires RecordOk(t, record, |t.log|) && t.docsOf == t.files && t.nextEpoch == epoch + 1
    requires t.root == IndexSnapshot(SegmentsIn(record, t.files), Offsets(SegmentsIn(record, t.files)), record.internal, epoch)
    ensures RootInv(t)
  {
    hide Represents, SegmentsIn, Replay;
    assert t.log[..|t.log|] == t.log;
    LoadedIds(record, t.files);
    LoadedFromFiles(record, t.files);
  }

  lemma {:induction false} LoadedFromFiles(record: Record, files: map<nat, seq<Entry>>)
    requires Loadable(record, files)
    ensures Bound(SegmentsIn(record, files), files)
  {
  }

  lemma {:induction false} ReopenedRoot(s: State, bolt: map<nat, Record>, durable: nat)
    requires Openable(s, bolt, durable) && bolt != map[]
    ensures
      var t, record := Reopen(s, bolt, durable), bolt[Max(bolt.Keys)];
      && t == Opened(s, t.root, bolt, durable)
      && RecordOk(s, record, durable) && t.root.segments == SegmentsIn(record, s.files)
      && t.root.internal == record.internal && t.root.epoch == Max(bolt.Keys)
      && RootInv(t)
  {
    hide RecordOk, Represents, FirstLoadable, RootInv, SegmentsIn, Loadable, Max;
    var t, e := Reopen(s, bolt, durable), Max(bolt.Keys);
    OpenableAt(s, bolt, durable, e);
    hide Openable;
    NewestLoads(s, bolt, durable);
    KeptRecord(s, t, bolt, durable, e, durable);
    OpenedRoot(s, t, bolt[e], e);
  }

  lemma {:induction false} ReopenedBolt(s: State, t: State, bolt: map<nat, Record>, durable: nat)
    requires Openable(s, bolt, durable) && Restarted(s, t, bolt, durable) && AlreadyWritten(bolt, t.root)
    requires t.bolt == bolt && t.upTo == s.upTo && t.durable == durable
    requires bolt != map[] ==> t.root.epoch == Max(bolt.Keys)
    ensures BoltInv(t)
  {
    hide RecordOk, AlreadyWritten, Restarted;
    forall e | e in bolt
      ensures e in s.upTo && RecordOk(t, bolt[e], s.upTo[e])
    {
      OpenableAt(s, bolt, durable, e);
      KeptRecord(s, t, bolt, durable, e, s.upTo[e]);
    }
    assert durable == |t.log| by { RestartedLog(s, t, bolt, durable); }
  }

  lemma {:induction false} RestartedLog(s: State, t: State, bolt: map<nat, Record>, durable: nat)
    requires Restarted(s, t, bolt, durable)
    ensures |t.log| == durable
  {
  }

  lemma {:induction false} ReopenedWritten(s: State, bolt: map<nat, Record>, root: IndexSnapshot)
    requires root.epoch in bolt && Loadable(bolt[root.epoch], s.files)
    requires root.segments == SegmentsIn(bolt[root.epoch], s.files) && root.internal == bolt[root.epoch].internal
    ensures AlreadyWritten(bolt, root) && FileIds(root.segments) == bolt[root.epoch].Files() <= Only(s.files, BoltFiles(bolt)).Keys
  {
    var record := bolt[root.epoch];
    LoadThenWrite(record, s.files);
    LoadedAreFiles(record, s.files);
    assert record.Files() <= s.files.Keys;
  }

  lemma {:induction false} RecordLoads(s: State, record: Record, n: nat)
    requires RecordOk(s, record, n)
    ensures Loadable(record, s.files)
  {
  }

  lemma {:induction false} OpenedIds(s: State, root: IndexSnapshot, bolt: map<nat, Record>, durable: nat)
    ensures IdsInv(Opened(s, root, bolt, durable))
  {
  }

  lemma {:induction false} OpenedGoroutines(s: State, root: IndexSnapshot, bolt: map<nat, Record>, durable: nat)
    ensures
      var t := Opened(s, root, bolt, durable);
      BatchesInv(t) && MergerInv(t) && FlushInv(t) && AckInv(t)
  {
  }

  lemma {:induction false} OpenedInv(s: State, bolt: map<nat, Record>, durable: nat)
    requires Openable(s, bolt, durable) && bolt != map[]
    ensures Inv(Reopen(s, bolt, durable)) && Reopen(s, bolt, durable).log == s.log[..durable]
  {
    hide Openable, FirstLoadable, RecordOk, Represents, RootInv, IdsInv, BatchesInv, MergerInv, FlushInv, BoltInv, AckInv,
      AlreadyWritten, Reopen, SegmentsIn, Loadable, Max;
    var t := Reopen(s, bolt, durable);
    ReopenedRoot(s, bolt, durable);
    RecordLoads(s, bolt[t.root.epoch], durable);
    RecordWithin(s, bolt[t.root.epoch], durable);
    ReopenedWritten(s, bolt, t.root);
    ReopenedBolt(s, t, bolt, durable);
    OpenedIds(s, t.root, bolt, durable);
    OpenedGoroutines(s, t.root, bolt, durable);
  }

  lemma {:induction false} ReopenedEmpty(s: State, durable: nat)
    requires Openable(s, map[], durable)
    ensures Inv(Reopen(s, map[], durable)) && durable == 0
  {
    var none: map<nat, Record> := map[];
    var t := Reopen(s, none, durable);
    assert Ascending(none.Keys) == [];
    EmptyRepresents();
    assert t.files == map[] && t.docsOf == map[];
    assert t.log == [];
  }

  /** Opening such a store gives the map that the first `durable` batches build. */
  lemma {:induction false} ReopenKeepsInv(s: State, bolt: map<nat, Record>, durable: nat)
    requires Openable(s, bolt, durable)
    ensures durable <= |s.log|
    ensures Inv(Reopen(s, bolt, durable)) && Reopen(s, bolt, durable).log == s.log[..durable]
  {
    if bolt != map[] {
      OpenedInv(s, bolt, durable);
    } else {
      ReopenedEmpty(s, durable);
    }
  }

  lemma {:induction false} CrashOpens(s: State)
    requires Inv(s)
    ensures Openable(s, s.bolt, s.durable)
  {
    hide RootInv, IdsInv, BatchesInv, MergerInv, FlushInv, FileInv, AckInv, RecordOk;
  }

  lemma {:induction false} CrashKeepsInv(s: State)
    requires Inv(s)
    ensures Inv(Reopen(s, s.bolt, s.durable)) && Reopen(s, s.bolt, s.durable).log == s.log[..s.durable]
  {
    hide *;
    CrashOpens(s);
    ReopenKeepsInv(s, s.bolt, s.durable);
  }

  lemma {:induction false} RollbackOpens(s: State, to: nat)
    requires Inv(s) && to in s.bolt
    ensures to in s.upTo && s.upTo[to] <= s.durable
    ensures
      var left := UpToEpoch(s.bolt, to);
      left != map[] && Max(left.Keys) == to && Openable(s, left, s.upTo[to])
  {
    hide RootInv, IdsInv, BatchesInv, MergerInv, FlushInv, FileInv, AckInv, RecordOk;
    var left := UpToEpoch(s.bolt, to);
    assert to in left.Keys && IsMax(left.Keys, to);
    RecordWithin(s, s.bolt[to], s.upTo[to]);
  }

  /** After a rollback the target is the newest epoch left. */
  lemma {:induction false} RollbackKeepsInv(s: State, to: nat)
    requires Inv(s) && to in s.bolt
    ensures to in s.upTo && s.upTo[to] <= s.durable
    ensures
      var t := Reopen(s, UpToEpoch(s.bolt, to), s.upTo[to]);
      Inv(t) && t.log == s.log[..s.upTo[to]] && t.root.epoch == to
  {
    hide *;
    var left := UpToEpoch(s.bolt, to);
    RollbackOpens(s, to);
    ReopenKeepsInv(s, left, s.upTo[to]);
    ReopenedRoot(s, left, s.upTo[to]);
  }

  lemma {:induction false} RecordWithin(s: State, record: Record, n: nat)
    requires RecordOk(s, record, n)
    ensures n <= |s.log|
  {
  }
}
