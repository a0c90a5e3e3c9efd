/** What is committed after several workers merged in-memory segments: exactly when opening the index
    at the record gives back the snapshot that the persister captured. */
module WorkersRecord {
  import opened Options
  import opened Segments
  import opened Snapshots
  import opened MergeContents
  import opened Store
  import opened Persister
  import opened FlushWorkers
  import opened Protocol
  import FlushSteps
  import Introducer
  import Merger

  ghost predicate OnDisk(s: SegmentSnapshot, files: map<nat, seq<Entry>>) {
    s.file && s.id in files && files[s.id] == s.docs
  }

  function IdSet(ids: seq<nat>): set<nat> { set i | 0 <= i < |ids| :: ids[i] }

  /** What is written in place of the captured segments, see `Persister.Equivalent`. */
  function Written(segments: seq<SegmentSnapshot>, inputs: seq<seq<SegmentSnapshot>>, root: seq<SegmentSnapshot>, m: SegmentMerge): seq<SegmentSnapshot>
    requires |m.news| == |m.ids|
  {
    NotMerged(segments, Ids(Flat(inputs))) + WithoutDeletes(SegmentsAfterMerge(root, m), IdSet(m.ids))
  }

  ghost predicate KeepsSome(root: seq<SegmentSnapshot>, m: SegmentMerge) {
    exists w | 0 <= w < |m.news| :: WorthKeeping(root, m, w)
  }

  /** The stand-in is written only if enough segments were merged and the introducer kept an output.
      Otherwise the captured snapshot itself is. */
  ghost predicate StandsIn(inputs: seq<seq<SegmentSnapshot>>, root: seq<SegmentSnapshot>, m: SegmentMerge) {
    |Flat(inputs)| >= MIN_SEGMENTS_FOR_IN_MEMORY_MERGE && KeepsSome(root, m)
  }

  ghost function Committed(segments: seq<SegmentSnapshot>, inputs: seq<seq<SegmentSnapshot>>, root: seq<SegmentSnapshot>, m: SegmentMerge): seq<SegmentSnapshot>
    requires |m.news| == |m.ids|
  {
    if StandsIn(inputs, root, m) then Written(segments, inputs, root, m) else segments
  }

  /** The segments of the captured snapshot that get no file. */
  ghost function LeftOut(segments: seq<SegmentSnapshot>, inputs: seq<seq<SegmentSnapshot>>, root: seq<SegmentSnapshot>, m: SegmentMerge): set<nat> {
    if StandsIn(inputs, root, m) then Ids(segments) - Ids(Flat(inputs)) else {}
  }

  /** What the persister captured, with its files. */
  ghost predicate OnDiskBefore(segments: seq<SegmentSnapshot>, files: map<nat, seq<Entry>>) {
    SegmentsOk(segments) && forall i | 0 <= i < |segments| && segments[i].file :: OnDisk(segments[i], files)
  }

  /** The in-memory segments that are not left out were written to files. */
  ghost predicate WrittenToDisk(committed: seq<SegmentSnapshot>, exclude: set<nat>, files: map<nat, seq<Entry>>) {
    forall i | 0 <= i < |committed| && !committed[i].file && committed[i].id !in exclude ::
      committed[i].id in files && files[committed[i].id] == committed[i].docs
  }

  /** The workers merged segments of the captured snapshot, into files with new ids, and the root is
      the one that the introducer sees. */
  ghost predicate MergedByWorkers(segments: seq<SegmentSnapshot>, inputs: seq<seq<SegmentSnapshot>>, root: seq<SegmentSnapshot>,
                                  m: SegmentMerge, files: map<nat, seq<Entry>>)
  {
    && OnDiskBefore(segments, files) && SegmentsOk(root) && BuiltFrom(m, inputs) && AllEarlier(root, inputs)
    && (forall k | 0 <= k < |Flat(inputs)| :: Flat(inputs)[k] in segments)
    && (forall v, w | 0 <= v < w < |m.ids| :: m.ids[v] != m.ids[w])
    && IdSet(m.ids) !! Ids(root) && IdSet(m.ids) !! Ids(segments)
    && (forall w | 0 <= w < |m.news| && m.news[w].Some? :: m.ids[w] in files && files[m.ids[w]] == m.news[w].value)
  }

  /** Opening the index at the record gives the documents of the captured snapshot. */
  ghost predicate Recovers(record: Record, files: map<nat, seq<Entry>>, epoch: nat, segments: seq<SegmentSnapshot>) {
    var loaded := LoadSnapshot(record, files, epoch);
    loaded.Success? && SameDocuments(loaded.value.segments, segments)
  }

  ghost predicate SameDocuments(a: seq<SegmentSnapshot>, b: seq<SegmentSnapshot>) {
    forall e :: Occurrences(Contents(a), e) == Occurrences(Contents(b), e)
  }

  predicate AllTaken(segments: seq<SegmentSnapshot>, inputs: seq<seq<SegmentSnapshot>>) {
    forall i | 0 <= i < |segments| && !segments[i].file :: segments[i].id in Ids(Flat(inputs))
  }

  /** The root still holds a live document of what each worker merged. */
  predicate AllHeld(root: seq<SegmentSnapshot>, inputs: seq<seq<SegmentSnapshot>>) {
    forall w | 0 <= w < |inputs| && inputs[w] != [] :: CurrentAll(root, inputs[w]) != []
  }

  predicate NothingHeld(root: seq<SegmentSnapshot>, inputs: seq<seq<SegmentSnapshot>>) {
    forall w | 0 <= w < |inputs| :: CurrentAll(root, inputs[w]) == []
  }

  // ---- the outputs in the record ----

  /** The outputs of the first `n` workers that the introducer kept, without deletes. */
  function Outputs(root: seq<SegmentSnapshot>, m: SegmentMerge, n: nat): seq<SegmentSnapshot>
    requires n <= |m.news| == |m.ids|
  {
    if n == 0 then [] else
      if WorthKeeping(root, m, n - 1) then Outputs(root, m, n - 1) + [SegmentSnapshot(m.ids[n - 1], m.news[n - 1].value, true, {})]
      else Outputs(root, m, n - 1)
  }

  lemma {:induction false} WithoutConcat(a: seq<SegmentSnapshot>, b: seq<SegmentSnapshot>, ids: set<nat>)
    ensures WithoutDeletes(a + b, ids) == WithoutDeletes(a, ids) + WithoutDeletes(b, ids)
  {
    if b == [] {
      assert a + b == a;
    } else {
      assert (a + b)[..|a + b| - 1] == a + b[..|b| - 1];
      WithoutConcat(a, b[..|b| - 1], ids);
    }
  }

  lemma {:induction false} WithoutNone(a: seq<SegmentSnapshot>, ids: set<nat>)
    requires Ids(a) !! ids
    ensures WithoutDeletes(a, ids) == []
  {
    if a != [] {
      assert Ids(a) == Ids(a[..|a| - 1]) + {a[|a| - 1].id};
      WithoutNone(a[..|a| - 1], ids);
    }
  }

  lemma {:induction false} WithoutSnoc(a: seq<SegmentSnapshot>, s: SegmentSnapshot, ids: set<nat>)
    requires s.id in ids
    ensures WithoutDeletes(a + [s], ids) == WithoutDeletes(a, ids) + [s.(deleted := {})]
  {
    assert (a + [s])[..|a|] == a;
  }

  lemma {:induction false} NewWithout(root: seq<SegmentSnapshot>, m: SegmentMerge, n: nat)
    requires n <= |m.news| == |m.ids|
    ensures WithoutDeletes(NewSegments(root, m, n), IdSet(m.ids)) == Outputs(root, m, n)
  {
    if n > 0 {
      hide WithoutDeletes, NewDeleted;
      NewWithout(root, m, n - 1);
      if WorthKeeping(root, m, n - 1) {
        WithoutSnoc(NewSegments(root, m, n - 1), NewSegment(root, m, n - 1), IdSet(m.ids));
      }
    } else {
      assert NewSegments(root, m, 0) == [];
    }
  }

  lemma {:induction false} WrittenIs(segments: seq<SegmentSnapshot>, inputs: seq<seq<SegmentSnapshot>>, root: seq<SegmentSnapshot>, m: SegmentMerge)
    requires SegmentsOk(root) && |m.news| == |m.ids| && IdSet(m.ids) !! Ids(root)
    ensures Written(segments, inputs, root, m) == NotMerged(segments, Ids(Flat(inputs))) + Outputs(root, m, |m.news|)
  {
    KeptOk(root, m.history.Keys);
    hide WithoutDeletes, NotMerged, Kept, NewSegments, Outputs;
    WithoutConcat(Kept(root, m.history.Keys), NewSegments(root, m, |m.news|), IdSet(m.ids));
    WithoutNone(Kept(root, m.history.Keys), IdSet(m.ids));
    NewWithout(root, m, |m.news|);
    assert WithoutDeletes(SegmentsAfterMerge(root, m), IdSet(m.ids)) == Outputs(root, m, |m.news|);
  }

  lemma {:induction false} OutputsOk(root: seq<SegmentSnapshot>, m: SegmentMerge, n: nat)
    requires n <= |m.news| == |m.ids| && forall v, w | 0 <= v < w < |m.ids| :: m.ids[v] != m.ids[w]
    ensures SegmentsOk(Outputs(root, m, n)) && Ids(Outputs(root, m, n)) <= IdSet(m.ids[..n])
    ensures forall i | 0 <= i < |Outputs(root, m, n)| :: Outputs(root, m, n)[i].file
    ensures forall i | 0 <= i < |Outputs(root, m, n)| ::
              exists w :: 0 <= w < n && m.news[w] == Some(Outputs(root, m, n)[i].docs) && m.ids[w] == Outputs(root, m, n)[i].id
  {
    if n > 0 {
      hide NewDeleted;
      OutputsOk(root, m, n - 1);
      var before := Outputs(root, m, n - 1);
      forall id | id in IdSet(m.ids[..n - 1])
        ensures id in IdSet(m.ids[..n]) && id != m.ids[n - 1]
      {
        var w :| 0 <= w < n - 1 && m.ids[..n - 1][w] == id;
        assert m.ids[..n][w] == id;
      }
      assert m.ids[..n][n - 1] == m.ids[n - 1];
      if WorthKeeping(root, m, n - 1) {
        AddSegment(before, SegmentSnapshot(m.ids[n - 1], m.news[n - 1].value, true, {}));
      }
    }
  }

  // ---- the documents ----

  lemma {:induction false} FlatSnoc(inputs: seq<seq<SegmentSnapshot>>, n: nat)
    requires n < |inputs|
    ensures Flat(inputs[..n + 1]) == Flat(inputs[..n]) + inputs[n]
  {
    assert inputs[..n + 1][..n] == inputs[..n];
  }

  ghost predicate Reported(m: SegmentMerge, inputs: seq<seq<SegmentSnapshot>>) {
    && |m.news| == |m.ids| == |inputs|
    && forall w | 0 <= w < |inputs| && m.news[w].Some? :: m.news[w].value == Segments.Merged(inputs[w])
  }

  /** The occurrences in what the first `n` workers read, in one worker's inputs, and in their outputs. */
  ghost function Read(inputs: seq<seq<SegmentSnapshot>>, n: nat, e: Entry): nat
    requires n <= |inputs|
  {
    Occurrences(Contents(Flat(inputs[..n])), e)
  }

  ghost function ReadBy(inputs: seq<seq<SegmentSnapshot>>, w: nat, e: Entry): nat
    requires w < |inputs|
  {
    Occurrences(Contents(inputs[w]), e)
  }

  ghost function Held(root: seq<SegmentSnapshot>, m: SegmentMerge, n: nat, e: Entry): nat
    requires n <= |m.news| == |m.ids|
  {
    Occurrences(Contents(Outputs(root, m, n)), e)
  }

  /** An output holds what its worker read, so the outputs hold what all workers read but for the
      inputs of those that the introducer dropped. */
  lemma {:induction false} OutputsContents(root: seq<SegmentSnapshot>, m: SegmentMerge, inputs: seq<seq<SegmentSnapshot>>, n: nat, e: Entry)
    requires Reported(m, inputs) && |m.news| == |m.ids| == |inputs| && n <= |inputs|
    ensures Held(root, m, n, e) <= Read(inputs, n, e)
    ensures (forall w | 0 <= w < n :: inputs[w] == [] || WorthKeeping(root, m, w)) ==> Held(root, m, n, e) == Read(inputs, n, e)
    ensures forall w | 0 <= w < n && !WorthKeeping(root, m, w) :: Held(root, m, n, e) + ReadBy(inputs, w, e) <= Read(inputs, n, e)
  {
    hide Reported, WorthKeeping, Held, Read, ReadBy;
    if n > 0 {
      OutputsContents(root, m, inputs, n - 1, e);
      OneOutput(root, m, inputs, n - 1, e);
    } else {
      NoOutputs(root, m, inputs, e);
    }
  }

  lemma {:induction false} NoOutputs(root: seq<SegmentSnapshot>, m: SegmentMerge, inputs: seq<seq<SegmentSnapshot>>, e: Entry)
    requires |m.news| == |m.ids|
    ensures Held(root, m, 0, e) == Read(inputs, 0, e) == 0
  {
    assert inputs[..0] == [];
    NothingOccurs(e);
  }

  lemma {:induction false} OneOutput(root: seq<SegmentSnapshot>, m: SegmentMerge, inputs: seq<seq<SegmentSnapshot>>, n: nat, e: Entry)
    requires Reported(m, inputs) && n < |inputs| == |m.news| == |m.ids|
    ensures Read(inputs, n + 1, e) == Read(inputs, n, e) + ReadBy(inputs, n, e)
    ensures Held(root, m, n + 1, e) == Held(root, m, n, e) + (if WorthKeeping(root, m, n) then ReadBy(inputs, n, e) else 0)
    ensures inputs[n] == [] ==> ReadBy(inputs, n, e) == 0
  {
    FlatSnoc(inputs, n);
    hide NewDeleted, Flat;
    ContentsConcat(Flat(inputs[..n]), inputs[n]);
    OccurrencesConcat(Contents(Flat(inputs[..n])), Contents(inputs[n]), e);
    if WorthKeeping(root, m, n) {
      var out := SegmentSnapshot(m.ids[n], m.news[n].value, true, {});
      FlushSteps.MergedIsContents(inputs[n]);
      LiveAll(out.docs);
      ContentsSnoc(Outputs(root, m, n), out);
      OccurrencesConcat(Contents(Outputs(root, m, n)), out.Contents(), e);
    }
  }

  lemma {:induction false} NotMergedIsKept(segments: seq<SegmentSnapshot>, gone: set<nat>)
    requires SegmentsOk(segments)
    ensures NotMerged(segments, gone) == Kept(segments, gone)
  {
    if segments != [] {
      NotMergedIsKept(segments[..|segments| - 1], gone);
    }
  }

  lemma {:induction false} MembersAreCurrent(segments: seq<SegmentSnapshot>, inputs: seq<SegmentSnapshot>)
    requires DistinctIds(segments) && forall k | 0 <= k < |inputs| :: inputs[k] in segments
    ensures CurrentAll(segments, inputs) == Contents(inputs)
  {
    if inputs != [] {
      var n := |inputs| - 1;
      MembersAreCurrent(segments, inputs[..n]);
      var i :| 0 <= i < |segments| && segments[i] == inputs[n];
      Introducer.FindAt(segments, i);
    }
  }

  lemma {:induction false} CapturedSplits(segments: seq<SegmentSnapshot>, inputs: seq<SegmentSnapshot>, e: Entry)
    requires SegmentsOk(segments) && DistinctIds(inputs) && forall k | 0 <= k < |inputs| :: inputs[k] in segments
    ensures Occurrences(Contents(segments), e)
         == Occurrences(Contents(NotMerged(segments, Ids(inputs))), e) + Occurrences(Contents(inputs), e)
  {
    SplitContents(segments, inputs, e);
    MembersAreCurrent(segments, inputs);
    NotMergedIsKept(segments, Ids(inputs));
  }

  /** What is written has the captured documents but for those of dropped outputs. */
  lemma {:induction false} WrittenContents(segments: seq<SegmentSnapshot>, inputs: seq<seq<SegmentSnapshot>>, root: seq<SegmentSnapshot>,
                                           m: SegmentMerge, files: map<nat, seq<Entry>>, e: Entry)
    requires MergedByWorkers(segments, inputs, root, m, files)
    ensures |m.news| == |m.ids| == |inputs|
    ensures (forall w | 0 <= w < |inputs| :: inputs[w] == [] || WorthKeeping(root, m, w)) ==>
              Occurrences(Contents(Written(segments, inputs, root, m)), e) == Occurrences(Contents(segments), e)
    ensures forall w | 0 <= w < |inputs| && !WorthKeeping(root, m, w) ::
              Occurrences(Contents(Written(segments, inputs, root, m)), e) + ReadBy(inputs, w, e) <= Occurrences(Contents(segments), e)
  {
    hide BuiltFrom, NewDeleted, Flat, Contents, Occurrences, NotMerged, Outputs, Written, SegmentsOk, IdSet, AllEarlier, Reported, WorthKeeping;
    SameLengths(m, inputs);
    WrittenIs(segments, inputs, root, m);
    CapturedSplits(segments, Flat(inputs), e);
    OutputsContents(root, m, inputs, |inputs|, e);
    assert inputs[..|inputs|] == inputs;
    var kept, outputs := NotMerged(segments, Ids(Flat(inputs))), Outputs(root, m, |m.news|);
    ContentsConcat(kept, outputs);
    OccurrencesConcat(Contents(kept), Contents(outputs), e);
  }

  lemma {:induction false} SameLengths(m: SegmentMerge, inputs: seq<seq<SegmentSnapshot>>)
    requires BuiltFrom(m, inputs)
    ensures |m.news| == |m.ids| == |inputs| && DistinctIds(Flat(inputs)) && Reported(m, inputs)
  {
  }

  // ---- the record ----

  lemma {:induction false} NotMergedHas(segments: seq<SegmentSnapshot>, gone: set<nat>, i: nat)
    requires i < |segments| && segments[i].id !in gone
    ensures segments[i] in NotMerged(segments, gone)
  {
    if i < |segments| - 1 {
      NotMergedHas(segments[..|segments| - 1], gone, i);
    }
  }

  lemma {:induction false} OkConcat(a: seq<SegmentSnapshot>, b: seq<SegmentSnapshot>)
    requires SegmentsOk(a) && SegmentsOk(b) && Ids(a) !! Ids(b)
    ensures SegmentsOk(a + b)
  {
    forall i, j | 0 <= i < |a| && 0 <= j < |b|
      ensures a[i].id != b[j].id
    {
      assert a[i].id in Ids(a) && b[j].id in Ids(b);
    }
  }

  /** Distinct ids and live documents. */
  lemma {:induction false} WrittenOk(segments: seq<SegmentSnapshot>, inputs: seq<seq<SegmentSnapshot>>, root: seq<SegmentSnapshot>,
                                     m: SegmentMerge, files: map<nat, seq<Entry>>)
    requires MergedByWorkers(segments, inputs, root, m, files)
    ensures |m.news| == |m.ids| && SegmentsOk(Written(segments, inputs, root, m))
  {
    hide NotMerged, Outputs, BuiltFrom, AllEarlier, Flat, Written, Kept, SegmentsOk;
    SameLengths(m, inputs);
    KeptOk(segments, Ids(Flat(inputs)));
    NotMergedIsKept(segments, Ids(Flat(inputs)));
    WrittenIs(segments, inputs, root, m);
    OutputsOk(root, m, |m.news|);
    assert m.ids[..|m.ids|] == m.ids;
    OkConcat(NotMerged(segments, Ids(Flat(inputs))), Outputs(root, m, |m.news|));
  }

  /** When every in-memory segment went to a worker, all that is written is on disk already. */
  lemma {:induction false} WrittenOnDisk(segments: seq<SegmentSnapshot>, inputs: seq<seq<SegmentSnapshot>>, root: seq<SegmentSnapshot>,
                                         m: SegmentMerge, files: map<nat, seq<Entry>>)
    requires MergedByWorkers(segments, inputs, root, m, files) && |m.news| == |m.ids| && AllTaken(segments, inputs)
    ensures forall s <- Written(segments, inputs, root, m) :: OnDisk(s, files)
  {
    hide NotMerged, Outputs, BuiltFrom, AllEarlier, Flat, Written, Kept;
    var kept, outputs := NotMerged(segments, Ids(Flat(inputs))), Outputs(root, m, |m.news|);
    KeptOk(segments, Ids(Flat(inputs)));
    NotMergedIsKept(segments, Ids(Flat(inputs)));
    WrittenIs(segments, inputs, root, m);
    OutputsOk(root, m, |m.news|);
    forall s | s in kept
      ensures OnDisk(s, files)
    {
      var i :| 0 <= i < |segments| && segments[i] == s;
      assert s.id in Ids(kept) by { var k :| 0 <= k < |kept| && kept[k] == s; }
    }
    forall s | s in outputs
      ensures OnDisk(s, files)
    {
      var i :| 0 <= i < |outputs| && outputs[i] == s;
      var w :| 0 <= w < |m.news| && m.news[w] == Some(outputs[i].docs) && m.ids[w] == outputs[i].id;
    }
  }

  lemma {:induction false} WrittenHas(segments: seq<SegmentSnapshot>, inputs: seq<seq<SegmentSnapshot>>, root: seq<SegmentSnapshot>,
                                      m: SegmentMerge, i: nat)
    requires |m.news| == |m.ids| && i < |segments| && segments[i].id !in Ids(Flat(inputs))
    ensures segments[i] in Written(segments, inputs, root, m)
  {
    hide NotMerged, Flat, WithoutDeletes;
    NotMergedHas(segments, Ids(Flat(inputs)), i);
  }

  lemma {:induction false} FilesIgnoreExclude(segments: seq<SegmentSnapshot>, exclude: set<nat>)
    requires forall s <- segments :: s.file
    ensures RecordSegments(segments, exclude) == RecordSegments(segments, {})
  {
    if segments != [] {
      FilesIgnoreExclude(segments[..|segments| - 1], exclude);
    }
  }

  /** A segment that found no worker has a bucket without a path, which cannot be loaded. */
  lemma {:induction false} LeftOutFails(segments: seq<SegmentSnapshot>, inputs: seq<seq<SegmentSnapshot>>, root: seq<SegmentSnapshot>,
                                        m: SegmentMerge, files: map<nat, seq<Entry>>, record: Record, epoch: nat)
    requires MergedByWorkers(segments, inputs, root, m, files) && |m.news| == |m.ids| && !AllTaken(segments, inputs)
    requires record.segments == RecordSegments(Written(segments, inputs, root, m), Ids(segments) - Ids(Flat(inputs)))
    ensures LoadSnapshot(record, files, epoch).Failure?
  {
    var i :| 0 <= i < |segments| && !segments[i].file && segments[i].id !in Ids(Flat(inputs));
    WrittenOk(segments, inputs, root, m, files);
    WrittenHas(segments, inputs, root, m, i);
    var written, exclude := Written(segments, inputs, root, m), Ids(segments) - Ids(Flat(inputs));
    hide MergedByWorkers, Written, Flat, AllTaken, LoadSnapshot;
    RecordSegmentsAt(written, exclude);
    var k :| 0 <= k < |written| && written[k] == segments[i];
    assert record.segments[written[k].id] == RecordOf(segments[i], exclude);
    NotLoaded(record, files, segments[i].id, epoch);
  }

  lemma {:induction false} AllTakenLoads(segments: seq<SegmentSnapshot>, inputs: seq<seq<SegmentSnapshot>>, root: seq<SegmentSnapshot>,
                                         m: SegmentMerge, files: map<nat, seq<Entry>>, record: Record, epoch: nat)
    requires MergedByWorkers(segments, inputs, root, m, files) && |m.news| == |m.ids| && AllTaken(segments, inputs)
    requires record.segments == RecordSegments(Written(segments, inputs, root, m), Ids(segments) - Ids(Flat(inputs)))
    ensures LoadSnapshot(record, files, epoch).Success?
    ensures SameDocuments(LoadSnapshot(record, files, epoch).value.segments, Written(segments, inputs, root, m))
  {
    hide MergedByWorkers, Written, Flat, AllTaken, SegmentsOk, RecordSegments, OnDisk, LoadSnapshot, SameDocuments;
    WrittenOk(segments, inputs, root, m, files);
    WrittenOnDisk(segments, inputs, root, m, files);
    OnDiskLoads(Written(segments, inputs, root, m), Ids(segments) - Ids(Flat(inputs)), files, record, epoch);
  }

  lemma {:induction false} OnDiskLoads(written: seq<SegmentSnapshot>, exclude: set<nat>, files: map<nat, seq<Entry>>, record: Record, epoch: nat)
    requires SegmentsOk(written) && (forall s <- written :: OnDisk(s, files)) && record.segments == RecordSegments(written, exclude)
    ensures LoadSnapshot(record, files, epoch).Success? && SameDocuments(LoadSnapshot(record, files, epoch).value.segments, written)
  {
    forall i | 0 <= i < |written|
      ensures written[i].file && written[i].id in files && files[written[i].id] == written[i].docs
    {
      assert OnDisk(written[i], files);
    }
    hide Occurrences, Contents, SegmentsOk, RecordSegments, SegmentsIn, Ascending, Loadable, LoadSnapshot, OnDisk;
    FilesIgnoreExclude(written, exclude);
    WrittenIsLoadable(written, record, files);
    Loads(record, files, epoch);
    forall e
      ensures Occurrences(Contents(SegmentsIn(record, files)), e) == Occurrences(Contents(written), e)
    {
      WriteThenLoad(written, record, files, e);
    }
  }

  lemma {:induction false} Loads(record: Record, files: map<nat, seq<Entry>>, epoch: nat)
    requires Loadable(record, files)
    ensures LoadSnapshot(record, files, epoch).Success? && LoadSnapshot(record, files, epoch).value.segments == SegmentsIn(record, files)
  {
    LoadSegmentsSucceeds(Ascending(record.segments.Keys), record, files);
  }

  // ---- exactly when nothing is lost ----

  /** A worker's output is kept exactly when the root still holds a live document of its inputs. */
  lemma {:induction false} KeptIffHeld(root: seq<SegmentSnapshot>, m: SegmentMerge, inputs: seq<seq<SegmentSnapshot>>, w: nat)
    requires SegmentsOk(root) && BuiltFrom(m, inputs) && AllEarlier(root, inputs) && w < |inputs|
    ensures WorthKeeping(root, m, w) <==> CurrentAll(root, inputs[w]) != []
  {
    NewSegmentContents(root, m, inputs, w);
    hide BuiltFrom, CurrentAll, AllEarlier;
    if m.news[w].Some? {
      LiveCount(m.news[w].value, NewDeleted(root, m, w));
    }
  }

  lemma {:induction false} SomethingRead(inputs: seq<SegmentSnapshot>) returns (e: Entry)
    requires inputs != [] && inputs[|inputs| - 1].Ok()
    ensures Occurrences(Contents(inputs), e) > 0
  {
    FlushSteps.MergedNotEmpty(inputs);
    FlushSteps.MergedIsContents(inputs);
    var entries := Contents(inputs);
    e := entries[|entries| - 1];
  }

  lemma {:induction false} WorkerInput(segments: seq<SegmentSnapshot>, inputs: seq<seq<SegmentSnapshot>>, root: seq<SegmentSnapshot>,
                                       m: SegmentMerge, files: map<nat, seq<Entry>>, w: nat)
    requires MergedByWorkers(segments, inputs, root, m, files) && w < |inputs| && inputs[w] != []
    ensures inputs[w][|inputs[w]| - 1].Ok()
  {
    var s := inputs[w][|inputs[w]| - 1];
    FlatContains(inputs, s);
    hide BuiltFrom, AllEarlier, Flat;
    var k :| 0 <= k < |Flat(inputs)| && Flat(inputs)[k] == s;
    var i :| 0 <= i < |segments| && segments[i] == s;
  }

  /** The documents are all there exactly when every worker's output was kept. */
  lemma {:induction false} SameDocumentsIff(segments: seq<SegmentSnapshot>, inputs: seq<seq<SegmentSnapshot>>, root: seq<SegmentSnapshot>,
                                            m: SegmentMerge, files: map<nat, seq<Entry>>)
    requires MergedByWorkers(segments, inputs, root, m, files)
    ensures |m.news| == |m.ids|
    ensures SameDocuments(Written(segments, inputs, root, m), segments) <==> AllHeld(root, inputs)
  {
    hide BuiltFrom, AllEarlier, Flat, SegmentsOk, Contents, Occurrences, CurrentAll, Written;
    SameLengths(m, inputs);
    forall w | 0 <= w < |inputs|
      ensures WorthKeeping(root, m, w) <==> CurrentAll(root, inputs[w]) != []
    {
      KeptIffHeld(root, m, inputs, w);
    }
    hide WorthKeeping;
    if AllHeld(root, inputs) {
      forall e
        ensures Occurrences(Contents(Written(segments, inputs, root, m)), e) == Occurrences(Contents(segments), e)
      {
        WrittenContents(segments, inputs, root, m, files, e);
      }
    } else {
      var w :| 0 <= w < |inputs| && inputs[w] != [] && CurrentAll(root, inputs[w]) == [];
      WorkerInput(segments, inputs, root, m, files, w);
      var e := SomethingRead(inputs[w]);
      WrittenContents(segments, inputs, root, m, files, e);
      assert ReadBy(inputs, w, e) > 0;
    }
  }

  lemma {:induction false} SameAs(loaded: seq<SegmentSnapshot>, written: seq<SegmentSnapshot>, captured: seq<SegmentSnapshot>)
    requires SameDocuments(loaded, written)
    ensures SameDocuments(loaded, captured) <==> SameDocuments(written, captured)
  {
    hide Occurrences, Contents;
    if SameDocuments(loaded, captured) {
      forall e
        ensures Occurrences(Contents(written), e) == Occurrences(Contents(captured), e)
      {
        assert Occurrences(Contents(loaded), e) == Occurrences(Contents(written), e);
      }
    }
  }

  /** When the stand-in is committed, opening gives the captured documents if and only if every in-memory
      segment went to a worker and the root still held a live document of what each worker merged. */
  lemma {:induction false} StandInIff(segments: seq<SegmentSnapshot>, inputs: seq<seq<SegmentSnapshot>>, root: seq<SegmentSnapshot>,
                                      m: SegmentMerge, files: map<nat, seq<Entry>>, record: Record, epoch: nat)
    requires MergedByWorkers(segments, inputs, root, m, files)
    requires |m.news| == |m.ids| && record.segments == RecordSegments(Written(segments, inputs, root, m), Ids(segments) - Ids(Flat(inputs)))
    ensures Recovers(record, files, epoch, segments) <==> AllTaken(segments, inputs) && AllHeld(root, inputs)
  {
    hide MergedByWorkers, Written, Flat, AllTaken, AllHeld, LoadSnapshot, SameDocuments;
    if AllTaken(segments, inputs) {
      AllTakenLoads(segments, inputs, root, m, files, record, epoch);
      SameDocumentsIff(segments, inputs, root, m, files);
      SameAs(LoadSnapshot(record, files, epoch).value.segments, Written(segments, inputs, root, m), segments);
    } else {
      LeftOutFails(segments, inputs, root, m, files, record, epoch);
    }
  }

  /** The captured snapshot itself, written without leaving anything out, is given back. */
  lemma {:induction false} CapturedRecovers(segments: seq<SegmentSnapshot>, files: map<nat, seq<Entry>>, record: Record, epoch: nat)
    requires OnDiskBefore(segments, files) && WrittenToDisk(segments, {}, files) && record.segments == RecordSegments(segments, {})
    ensures Recovers(record, files, epoch, segments)
  {
    assert FilesHold(segments, files);
    hide Occurrences, Contents, SegmentsOk, RecordSegments, SegmentsIn, Ascending, Loadable, LoadSnapshot, FilesHold;
    WrittenIsLoadable(segments, record, files);
    Loads(record, files, epoch);
    forall e
      ensures Occurrences(Contents(SegmentsIn(record, files)), e) == Occurrences(Contents(segments), e)
    {
      WriteThenLoad(segments, record, files, e);
    }
  }

  /** The introducer keeps some output exactly when the root still holds a live document of the inputs. */
  lemma {:induction false} KeepsSomeIff(root: seq<SegmentSnapshot>, m: SegmentMerge, inputs: seq<seq<SegmentSnapshot>>)
    requires SegmentsOk(root) && BuiltFrom(m, inputs) && AllEarlier(root, inputs)
    ensures KeepsSome(root, m) <==> !NothingHeld(root, inputs)
  {
    hide BuiltFrom, CurrentAll, AllEarlier, WorthKeeping, SegmentsOk;
    SameLengths(m, inputs);
    forall w | 0 <= w < |inputs|
      ensures WorthKeeping(root, m, w) <==> CurrentAll(root, inputs[w]) != []
    {
      KeptIffHeld(root, m, inputs, w);
    }
  }

  lemma {:induction false} MergedParts(segments: seq<SegmentSnapshot>, inputs: seq<seq<SegmentSnapshot>>, root: seq<SegmentSnapshot>,
                                       m: SegmentMerge, files: map<nat, seq<Entry>>)
    requires MergedByWorkers(segments, inputs, root, m, files)
    ensures OnDiskBefore(segments, files) && SegmentsOk(root) && BuiltFrom(m, inputs) && AllEarlier(root, inputs)
  {
  }

  /** Opening the index at what a flush commits gives the captured documents if and only if fewer than
      two segments were taken, or the root held nothing of them any more, or every in-memory segment
      went to a worker and the root still held a live document of what each worker merged. */
  lemma {:induction false} WorkersFlushIff(segments: seq<SegmentSnapshot>, inputs: seq<seq<SegmentSnapshot>>, root: seq<SegmentSnapshot>,
                                           m: SegmentMerge, files: map<nat, seq<Entry>>, record: Record, epoch: nat)
    requires OnDiskBefore(segments, files) && |m.news| == |m.ids|
    requires |Flat(inputs)| >= MIN_SEGMENTS_FOR_IN_MEMORY_MERGE ==> MergedByWorkers(segments, inputs, root, m, files)
    requires record.segments == RecordSegments(Committed(segments, inputs, root, m), LeftOut(segments, inputs, root, m))
    requires WrittenToDisk(Committed(segments, inputs, root, m), LeftOut(segments, inputs, root, m), files)
    ensures Recovers(record, files, epoch, segments) <==>
              || |Flat(inputs)| < MIN_SEGMENTS_FOR_IN_MEMORY_MERGE || NothingHeld(root, inputs)
              || (AllTaken(segments, inputs) && AllHeld(root, inputs))
  {
    hide MergedByWorkers, OnDiskBefore, WrittenToDisk, Written, Flat, AllTaken, AllHeld, NothingHeld, KeepsSome, Recovers, RecordSegments;
    if |Flat(inputs)| >= MIN_SEGMENTS_FOR_IN_MEMORY_MERGE {
      MergedParts(segments, inputs, root, m, files);
      KeepsSomeIff(root, m, inputs);
    }
    if StandsIn(inputs, root, m) {
      StandInIff(segments, inputs, root, m, files, record, epoch);
    } else {
      CapturedRecovers(segments, files, record, epoch);
    }
  }

  /** What the persister has merged and finally commits, for the groups that it makes. */
  ghost predicate Flushed(segments: seq<SegmentSnapshot>, inputs: seq<seq<SegmentSnapshot>>, root: seq<SegmentSnapshot>,
                          m: SegmentMerge, files: map<nat, seq<Entry>>, record: Record)
  {
    && OnDiskBefore(segments, files) && |m.news| == |m.ids|
    && (|Flat(inputs)| >= MIN_SEGMENTS_FOR_IN_MEMORY_MERGE ==> MergedByWorkers(segments, inputs, root, m, files))
    && record.segments == RecordSegments(Committed(segments, inputs, root, m), LeftOut(segments, inputs, root, m))
    && WrittenToDisk(Committed(segments, inputs, root, m), LeftOut(segments, inputs, root, m), files)
  }

  /** How many segments are taken. */
  function NumTaken(segments: seq<SegmentSnapshot>, sizes: seq<nat>, maxSize: int, workers: int): nat
    requires |sizes| == |segments|
  {
    |Joined(Flushables(segments, sizes, maxSize, workers))|
  }

  /** For the groups that the persister makes, in terms of sizes and of the root. */
  lemma {:induction false} GroupsFlushIff(segments: seq<SegmentSnapshot>, sizes: seq<nat>, maxSize: int, workers: int, root: seq<SegmentSnapshot>,
                                          m: SegmentMerge, files: map<nat, seq<Entry>>, record: Record, epoch: nat)
    requires |sizes| == |segments| && Flushed(segments, Inputs(segments, sizes, maxSize, workers), root, m, files, record)
    ensures Recovers(record, files, epoch, segments) <==>
              || NumTaken(segments, sizes, maxSize, workers) < MIN_SEGMENTS_FOR_IN_MEMORY_MERGE
              || NothingHeld(root, Inputs(segments, sizes, maxSize, workers))
              || ((forall i | 0 <= i < |segments| && !segments[i].file :: !AllBusy(segments, sizes, maxSize, workers, i))
                  && AllHeld(root, Inputs(segments, sizes, maxSize, workers)))
  {
    var inputs := Inputs(segments, sizes, maxSize, workers);
    assert DistinctIds(segments);
    WorkersApart(segments, sizes, maxSize, workers);
    InRange(segments, sizes, maxSize, workers);
    FlatPicks(segments, Flushables(segments, sizes, maxSize, workers));
    hide MergedByWorkers, OnDiskBefore, WrittenToDisk, Flat, AllHeld, NothingHeld, Recovers, AllBusy, Committed, LeftOut, RecordSegments,
      Flushables, Joined;
    WorkersFlushIff(segments, inputs, root, m, files, record, epoch);
  }

  /** What a flush writes: the groups are merged and introduced into the root, unless they are too few;
      when the introducer keeps no output the captured snapshot is written after all. */
  method PersistSnapshotMaybeMerge(segments: seq<SegmentSnapshot>, sizes: seq<nat>, maxSize: int, workers: int, root: seq<SegmentSnapshot>,
                                   newSegmentIDs: seq<nat>)
    returns (m: SegmentMerge, written: seq<SegmentSnapshot>, exclude: set<nat>)
    requires |sizes| == |segments| && DistinctIds(segments) && |newSegmentIDs| == |Flushables(segments, sizes, maxSize, workers)|
    ensures |m.news| == |m.ids|
    ensures NumTaken(segments, sizes, maxSize, workers) >= MIN_SEGMENTS_FOR_IN_MEMORY_MERGE ==>
              BuiltFrom(m, Inputs(segments, sizes, maxSize, workers)) && m.ids == newSegmentIDs
    ensures written == Committed(segments, Inputs(segments, sizes, maxSize, workers), root, m)
    ensures exclude == LeftOut(segments, Inputs(segments, sizes, maxSize, workers), root, m)
  {
    hide Flushables, Joined, Flat, Merger.Picks, DistinctIds, WithoutDeletes, NotMerged, NewSegments, Kept, NewDeleted, BuiltFrom;
    var flushSet, oldSegIdxs, numSegsToFlushOut := CollectFlushables(segments, sizes, maxSize, workers);
    InRange(segments, sizes, maxSize, workers);
    FlatPicks(segments, flushSet);
    if numSegsToFlushOut < MIN_SEGMENTS_FOR_IN_MEMORY_MERGE {
      return SegmentMerge([], [], map[]), segments, {};
    }
    WorkersApart(segments, sizes, maxSize, workers);
    m := Merger.MergeInMemorySegments(segments, flushSet, newSegmentIDs);
    SameLengths(m, Inputs(segments, sizes, maxSize, workers));
    var newSnapshot, skipped := SegmentsAfterMerge(root, m), NewSegments(root, m, |m.news|) == [];
    NoneIsNew(root, m, |m.news|);
    if skipped {
      return m, segments, {};
    }
    var mergedSegmentIDs := IdsAt(segments, oldSegIdxs, Flat(Merger.Picks(segments, flushSet)));
    written, exclude := Persister.Equivalent(segments, mergedSegmentIDs, newSnapshot, IdSet(m.ids));
  }

  method IdsAt(segments: seq<SegmentSnapshot>, positions: seq<nat>, ghost picked: seq<SegmentSnapshot>) returns (ids: set<nat>)
    requires |picked| == |positions| && forall k | 0 <= k < |positions| :: positions[k] < |segments| && picked[k] == segments[positions[k]]
    ensures ids == Ids(picked)
  {
    ids := {};
    for k := 0 to |positions|
      invariant ids == Ids(picked[..k])
    {
      IdsSnoc(picked[..k], picked[k]);
      assert picked[..k + 1] == picked[..k] + [picked[k]];
      ids := ids + {segments[positions[k]].id};
    }
    assert picked[..|picked|] == picked;
  }

  // ---- two flushes that lose documents ----

  const ONE := SegmentSnapshot(1, [Entry("a", "")], false, {})
  const TWO := SegmentSnapshot(2, [Entry("b", "")], false, {})
  const THREE := SegmentSnapshot(3, [Entry("c", "")], false, {})
  const CAPTURED := [ONE, TWO, THREE]
  const SIZES: seq<nat> := [1, 1, 1]

  lemma {:induction false} CapturedOk()
    ensures SegmentsOk(CAPTURED) && DistinctIds(CAPTURED) && ONE.Ok() && TWO.Ok() && THREE.Ok() && SegmentsOk([THREE])
    ensures Ids(CAPTURED) == {1, 2, 3} && Ids([THREE]) == {3}
    ensures CAPTURED == [ONE, TWO, THREE] && ONE.id == 1 && TWO.id == 2 && THREE.id == 3
    ensures !ONE.file && !TWO.file && !THREE.file && MIN_SEGMENTS_FOR_IN_MEMORY_MERGE == 2
  {
    var ids := Ids(CAPTURED);
    assert CAPTURED[0].id == 1 && CAPTURED[1].id == 2 && CAPTURED[2].id == 3;
    assert [THREE][0].id == 3;
  }

  lemma {:induction false} FlatPair(a: seq<SegmentSnapshot>, b: seq<SegmentSnapshot>)
    ensures Flat([a]) == a && Flat([a, b]) == a + b
  {
    assert [a, b][..1] == [a] && [a][..0] == [];
    assert Flat([a]) == Flat([]) + a == a;
  }

  /** The merge that one worker reports for the first two segments. */
  lemma {:induction false} MergeOfTwo() returns (m: SegmentMerge)
    ensures BuiltFrom(m, [[ONE, TWO]]) && m.ids == [4] && m.news == [Some(Segments.Merged([ONE, TWO]))]
  {
    FlatPair([ONE, TWO], []);
    var inputs := [[ONE, TWO]];
    var history := map[1 := MergedSegmentHistory(0, NewNumbers(inputs[0], 0), ONE), 2 := MergedSegmentHistory(0, NewNumbers(inputs[0], 1), TWO)];
    m := SegmentMerge([4], [Some(Segments.Merged(inputs[0]))], history);
    hide NewNumbers, Segments.Merged;
    PairIds();
  }

  lemma {:induction false} PairIds()
    ensures Ids([ONE, TWO]) == {1, 2} && DistinctIds([ONE, TWO])
  {
    assert [ONE, TWO][0].id == 1 && [ONE, TWO][1].id == 2;
  }

  function HistoryOfThree(inputs: seq<seq<SegmentSnapshot>>): map<nat, MergedSegmentHistory>
    requires inputs == [[ONE, TWO], [THREE]]
  {
    map[1 := MergedSegmentHistory(0, NewNumbers(inputs[0], 0), ONE), 2 := MergedSegmentHistory(0, NewNumbers(inputs[0], 1), TWO),
        3 := MergedSegmentHistory(1, NewNumbers(inputs[1], 0), THREE)]
  }

  lemma {:induction false} HistoryOfThreeAt(inputs: seq<seq<SegmentSnapshot>>, w: nat, j: nat)
    requires inputs == [[ONE, TWO], [THREE]] && w < |inputs| && j < |inputs[w]|
    ensures inputs[w][j].id in HistoryOfThree(inputs)
    ensures HistoryOfThree(inputs)[inputs[w][j].id] == MergedSegmentHistory(w, NewNumbers(inputs[w], j), inputs[w][j])
  {
    hide NewNumbers;
    OneOfThree(inputs, w, j);
  }

  lemma {:induction false} HistoryOfThreeKeys(inputs: seq<seq<SegmentSnapshot>>)
    requires inputs == [[ONE, TWO], [THREE]]
    ensures HistoryOfThree(inputs).Keys == {1, 2, 3}
  {
    hide NewNumbers;
  }

  /** The merge that two workers report for the first two and the third. */
  lemma {:induction false} MergeOfThree() returns (m: SegmentMerge)
    ensures BuiltFrom(m, [[ONE, TWO], [THREE]]) && m.ids == [4, 5]
    ensures m.news == [Some(Segments.Merged([ONE, TWO])), Some(Segments.Merged([THREE]))]
  {
    hide *;
    FlatPair([ONE, TWO], [THREE]);
    var inputs := [[ONE, TWO], [THREE]];
    CapturedOk();
    assert Flat(inputs) == CAPTURED;
    HistoryOfThreeKeys(inputs);
    m := SegmentMerge([4, 5], [Some(Segments.Merged([ONE, TWO])), Some(Segments.Merged([THREE]))], HistoryOfThree(inputs));
    forall w, j | 0 <= w < |inputs| && 0 <= j < |inputs[w]|
      ensures inputs[w][j].id in m.history && m.history[inputs[w][j].id] == MergedSegmentHistory(w, NewNumbers(inputs[w], j), inputs[w][j])
    {
      HistoryOfThreeAt(inputs, w, j);
    }
    PutTogether(m, inputs);
  }

  lemma {:induction false} OneOfThree(inputs: seq<seq<SegmentSnapshot>>, w: nat, j: nat)
    requires inputs == [[ONE, TWO], [THREE]] && w < |inputs| && j < |inputs[w]|
    ensures (w == 0 && j == 0 && inputs[w][j] == ONE) || (w == 0 && j == 1 && inputs[w][j] == TWO) || (w == 1 && j == 0 && inputs[w][j] == THREE)
  {
  }

  lemma {:induction false} PutTogether(m: SegmentMerge, inputs: seq<seq<SegmentSnapshot>>)
    requires |m.ids| == |m.news| == |inputs| && DistinctIds(Flat(inputs)) && m.history.Keys == Ids(Flat(inputs))
    requires forall w, j | 0 <= w < |inputs| && 0 <= j < |inputs[w]| ::
               && inputs[w][j].id in m.history
               && m.history[inputs[w][j].id] == MergedSegmentHistory(w, NewNumbers(inputs[w], j), inputs[w][j])
    requires forall w | 0 <= w < |inputs| :: m.news[w] == Some(Segments.Merged(inputs[w]))
    ensures BuiltFrom(m, inputs)
  {
    hide DistinctIds, Flat, Ids, NewNumbers, Segments.Merged;
  }

  lemma {:induction false} OneGroup()
    ensures Inputs(CAPTURED, SIZES, 1, 1) == [[ONE, TWO]]
  {
    assert Grouped(CAPTURED, SIZES, 1, 0) == Groups([], [], 0);
    assert Grouped(CAPTURED, SIZES, 1, 1) == Groups([], [0], 1);
    assert Grouped(CAPTURED, SIZES, 1, 2) == Groups([], [0, 1], 2);
    assert StopsAt(CAPTURED, SIZES, 1, 1, 2) == StopsAt(CAPTURED, SIZES, 1, 1, 1) == StopsAt(CAPTURED, SIZES, 1, 1, 0) == 2;
    assert Flushables(CAPTURED, SIZES, 1, 1) == [[0, 1]];
    var picks := Inputs(CAPTURED, SIZES, 1, 1);
    assert picks[0] == [ONE, TWO];
  }

  lemma {:induction false} TwoGroups()
    ensures Inputs(CAPTURED, SIZES, 1, 2) == [[ONE, TWO], [THREE]]
  {
    assert Grouped(CAPTURED, SIZES, 1, 0) == Groups([], [], 0);
    assert Grouped(CAPTURED, SIZES, 1, 1) == Groups([], [0], 1);
    assert Grouped(CAPTURED, SIZES, 1, 2) == Groups([], [0, 1], 2);
    assert Grouped(CAPTURED, SIZES, 1, 3) == Groups([[0, 1]], [2], 1);
    assert StopsAt(CAPTURED, SIZES, 1, 2, 3) == StopsAt(CAPTURED, SIZES, 1, 2, 2) == 3;
    assert StopsAt(CAPTURED, SIZES, 1, 2, 1) == StopsAt(CAPTURED, SIZES, 1, 2, 0) == 3;
    assert Flushables(CAPTURED, SIZES, 1, 2) == [[0, 1], [2]];
    var picks := Inputs(CAPTURED, SIZES, 1, 2);
    assert picks[0] == [ONE, TWO] && picks[1] == [THREE];
  }

  /** What a root of these segments still holds. */
  lemma {:induction false} HeldByRoot(root: seq<SegmentSnapshot>, inputs: seq<SegmentSnapshot>)
    requires SegmentsOk(root) && inputs != [] && inputs[|inputs| - 1].Ok() && forall k | 0 <= k < |inputs| :: inputs[k] in root
    ensures CurrentAll(root, inputs) != [] && EarlierStates(root, inputs)
  {
    var e := SomethingRead(inputs);
    MembersAreCurrent(root, inputs);
    forall k | 0 <= k < |inputs|
      ensures EarlierState(root, inputs[k])
    {
      var i :| 0 <= i < |root| && root[i] == inputs[k];
      Introducer.FindAt(root, i);
    }
  }

  lemma {:induction false} GoneFromRoot()
    ensures CurrentAll([THREE], [ONE, TWO]) == [] && EarlierStates([THREE], [ONE, TWO])
  {
    CapturedOk();
    assert [ONE, TWO][..1] == [ONE] && [ONE][..0] == [];
    assert CurrentAll([THREE], [ONE]) == [];
  }

  /** A stand-in has no segment that still needs a file. */
  lemma {:induction false} StandInIsOnDisk(segments: seq<SegmentSnapshot>, inputs: seq<seq<SegmentSnapshot>>, root: seq<SegmentSnapshot>,
                                           m: SegmentMerge, files: map<nat, seq<Entry>>)
    requires MergedByWorkers(segments, inputs, root, m, files)
    ensures |m.news| == |m.ids| && WrittenToDisk(Written(segments, inputs, root, m), Ids(segments) - Ids(Flat(inputs)), files)
  {
    hide NotMerged, Outputs, BuiltFrom, AllEarlier, Flat, Written, Kept;
    SameLengths(m, inputs);
    var kept, outputs := NotMerged(segments, Ids(Flat(inputs))), Outputs(root, m, |m.news|);
    KeptOk(segments, Ids(Flat(inputs)));
    NotMergedIsKept(segments, Ids(Flat(inputs)));
    WrittenIs(segments, inputs, root, m);
    OutputsOk(root, m, |m.news|);
    assert forall i | 0 <= i < |kept| :: kept[i].id in Ids(kept);
  }

  /** The record of a flush whose stand-in is committed. */
  lemma {:induction false} FlushOf(segments: seq<SegmentSnapshot>, inputs: seq<seq<SegmentSnapshot>>, root: seq<SegmentSnapshot>,
                                   m: SegmentMerge, files: map<nat, seq<Entry>>, w: nat) returns (record: Record)
    requires MergedByWorkers(segments, inputs, root, m, files) && |Flat(inputs)| >= MIN_SEGMENTS_FOR_IN_MEMORY_MERGE
    requires w < |inputs| && CurrentAll(root, inputs[w]) != []
    ensures Flushed(segments, inputs, root, m, files, record)
  {
    hide Flat, CurrentAll, Written, RecordSegments, WrittenToDisk, OnDiskBefore;
    MergedParts(segments, inputs, root, m, files);
    KeepsSomeIff(root, m, inputs);
    StandInIsOnDisk(segments, inputs, root, m, files);
    hide MergedByWorkers, KeepsSome;
    record := Record(RecordSegments(Committed(segments, inputs, root, m), LeftOut(segments, inputs, root, m)), map[]);
  }

  /** One worker with a limit of one byte and three in-memory segments, all still in the root: the third
      is left out. */
  lemma {:induction false} ThirdSegmentIsLost(epoch: nat) returns (m: SegmentMerge, files: map<nat, seq<Entry>>, record: Record)
    ensures Flushed(CAPTURED, Inputs(CAPTURED, SIZES, 1, 1), CAPTURED, m, files, record)
    ensures !Recovers(record, files, epoch, CAPTURED)
  {
    hide *;
    m := MergeOfTwo();
    files := map[4 := m.news[0].value];
    OneGroup();
    CapturedOk();
    FlatPair([ONE, TWO], []);
    HeldByRoot(CAPTURED, [ONE, TWO]);
    var inputs := [[ONE, TWO]];
    assert inputs[0] == [ONE, TWO];
    ReadByWorkers(CAPTURED, inputs, CAPTURED, m, files);
    ThirdNotTaken(inputs);
    record := FlushOf(CAPTURED, inputs, CAPTURED, m, files, 0);
    FlushLoses(CAPTURED, inputs, CAPTURED, m, files, record, epoch, 0);
  }

  lemma {:induction false} ThirdNotTaken(inputs: seq<seq<SegmentSnapshot>>)
    requires Flat(inputs) == [ONE, TWO]
    ensures !AllTaken(CAPTURED, inputs)
  {
    hide Flat;
    PairIds();
    assert CAPTURED[2] == THREE && !THREE.file && THREE.id !in Ids(Flat(inputs));
  }

  lemma {:induction false} FirstNotHeld(root: seq<SegmentSnapshot>, inputs: seq<seq<SegmentSnapshot>>)
    requires inputs != [] && inputs[0] != [] && CurrentAll(root, inputs[0]) == []
    ensures !AllHeld(root, inputs)
  {
    hide CurrentAll;
  }

  lemma {:induction false} FlushLoses(segments: seq<SegmentSnapshot>, inputs: seq<seq<SegmentSnapshot>>, root: seq<SegmentSnapshot>,
                                      m: SegmentMerge, files: map<nat, seq<Entry>>, record: Record, epoch: nat, w: nat)
    requires Flushed(segments, inputs, root, m, files, record) && |Flat(inputs)| >= MIN_SEGMENTS_FOR_IN_MEMORY_MERGE
    requires w < |inputs| && CurrentAll(root, inputs[w]) != [] && !(AllTaken(segments, inputs) && AllHeld(root, inputs))
    ensures !Recovers(record, files, epoch, segments)
  {
    hide Recovers, Flat, CurrentAll, AllTaken, AllHeld, Committed, LeftOut, MergedByWorkers, OnDiskBefore, WrittenToDisk, RecordSegments;
    WorkersFlushIff(segments, inputs, root, m, files, record, epoch);
  }

  /** Two workers, where only the third segment is still in the root: a crash before the deletes of the
      others are committed loses them all the same. */
  lemma {:induction false} FirstGroupIsLost(epoch: nat) returns (m: SegmentMerge, files: map<nat, seq<Entry>>, record: Record)
    ensures Flushed(CAPTURED, Inputs(CAPTURED, SIZES, 1, 2), [THREE], m, files, record)
    ensures !Recovers(record, files, epoch, CAPTURED)
  {
    hide *;
    m := MergeOfThree();
    files := map[4 := m.news[0].value, 5 := m.news[1].value];
    TwoGroups();
    CapturedOk();
    FlatPair([ONE, TWO], [THREE]);
    GoneFromRoot();
    HeldByRoot([THREE], [THREE]);
    var inputs := [[ONE, TWO], [THREE]];
    assert Flat(inputs) == CAPTURED;
    assert inputs[0] == [ONE, TWO] && inputs[1] == [THREE];
    ReadByWorkers(CAPTURED, inputs, [THREE], m, files);
    FirstNotHeld([THREE], inputs);
    record := FlushOf(CAPTURED, inputs, [THREE], m, files, 1);
    FlushLoses(CAPTURED, inputs, [THREE], m, files, record, epoch, 1);
  }

  lemma {:induction false} ReadByWorkers(segments: seq<SegmentSnapshot>, inputs: seq<seq<SegmentSnapshot>>, root: seq<SegmentSnapshot>,
                                         m: SegmentMerge, files: map<nat, seq<Entry>>)
    requires SegmentsOk(segments) && (forall i | 0 <= i < |segments| :: !segments[i].file && segments[i].id <= 3)
    requires SegmentsOk(root) && (forall id <- Ids(root) :: id <= 3)
    requires BuiltFrom(m, inputs) && (forall w | 0 <= w < |inputs| :: EarlierStates(root, inputs[w]))
    requires forall k | 0 <= k < |Flat(inputs)| :: Flat(inputs)[k] in segments
    requires forall v | 0 <= v < |m.ids| :: m.ids[v] == v + 4
    requires forall w | 0 <= w < |m.news| :: m.news[w].Some? && m.ids[w] in files && files[m.ids[w]] == m.news[w].value
    ensures MergedByWorkers(segments, inputs, root, m, files)
  {
    hide EarlierStates, Flat, SegmentsOk;
  }
}
