/** What the persister writes into bolt for a snapshot and what loading it gives back. */
module Store {
  import opened Options
  import opened Segments
  import opened Snapshots
  import opened MergeContents
  import opened IndexSpec

  /** The bucket of one segment. A segment left out of the flush has no path. A file is named by
      the id of its segment. */
  datatype SegmentRecord = SegmentRecord(path: Option<nat>, deleted: set<nat>)

  /** The bucket of one snapshot: segment buckets by id, and the internal values. */
  datatype Record = Record(segments: map<nat, SegmentRecord>, internal: map<string, string>)
  {
    function Files(): set<nat> {
      set id | id in segments && segments[id].path.Some? :: segments[id].path.value
    }
  }

  function RecordOf(s: SegmentSnapshot, exclude: set<nat>): SegmentRecord {
    SegmentRecord(if s.file || s.id !in exclude then Some(s.id) else None, s.deleted)
  }

  function RecordSegments(segments: seq<SegmentSnapshot>, exclude: set<nat>): map<nat, SegmentRecord> {
    if segments == [] then map[] else
      var last := segments[|segments| - 1];
      RecordSegments(segments[..|segments| - 1], exclude)[last.id := RecordOf(last, exclude)]
  }

  /** The in-memory segments that get a file. */
  function NewFiles(segments: seq<SegmentSnapshot>, exclude: set<nat>): set<nat> {
    set i | 0 <= i < |segments| && !segments[i].file && segments[i].id !in exclude :: segments[i].id
  }

  function FileIds(segments: seq<SegmentSnapshot>): set<nat> {
    set i | 0 <= i < |segments| && segments[i].file :: segments[i].id
  }

  function PrepareRecord(segments: seq<SegmentSnapshot>, internal: map<string, string>, exclude: set<nat>, bytesWritten: string): Record {
    Record(RecordSegments(segments, exclude), internal[TOT_BYTES_WRITTEN := bytesWritten])
  }

  /** Preparing a snapshot over a bucket that exists already: buckets and keys that are not
      written again stay. */
  function WriteOver(was: Record, now: Record): Record {
    Record(map id | id in was.segments.Keys + now.segments.Keys ::
             if id !in was.segments then now.segments[id]
             else if id !in now.segments then was.segments[id]
             else SegmentRecord(if now.segments[id].path.Some? then now.segments[id].path else was.segments[id].path,
                                if now.segments[id].deleted != {} then now.segments[id].deleted else was.segments[id].deleted),
           was.internal + now.internal)
  }

  lemma {:induction false} RecordSegmentsAt(segments: seq<SegmentSnapshot>, exclude: set<nat>)
    requires DistinctIds(segments)
    ensures RecordSegments(segments, exclude).Keys == Ids(segments)
    ensures forall i | 0 <= i < |segments| ::
              && segments[i].id in RecordSegments(segments, exclude)
              && RecordSegments(segments, exclude)[segments[i].id] == RecordOf(segments[i], exclude)
  {
    if segments != [] {
      var n := |segments| - 1;
      RecordSegmentsAt(segments[..n], exclude);
      assert Ids(segments) == Ids(segments[..n]) + {segments[n].id};
      forall i | 0 <= i < n
        ensures segments[i].id in RecordSegments(segments, exclude)
        ensures RecordSegments(segments, exclude)[segments[i].id] == RecordOf(segments[i], exclude)
      {
        assert segments[..n][i] == segments[i] && segments[i].id != segments[n].id;
      }
    }
  }

  // ---- loading ----

  ghost predicate IsMax(ids: set<nat>, m: nat) {
    m in ids && forall id <- ids :: id <= m
  }

  lemma {:induction false} MaxExists(ids: set<nat>)
    requires ids != {}
    ensures exists m :: IsMax(ids, m)
  {
    var m :| m in ids;
    if ids == {m} {
      assert IsMax(ids, m);
    } else {
      MaxExists(ids - {m});
      var n :| IsMax(ids - {m}, n);
      var best := if n > m then n else m;
      forall id | id in ids
        ensures id <= best
      {
        assert id == m || id in ids - {m};
      }
      assert IsMax(ids, best);
    }
  }

  ghost function Max(ids: set<nat>): (m: nat)
    requires ids != {}
    ensures IsMax(ids, m)
  {
    MaxExists(ids);
    var m :| IsMax(ids, m);
    m
  }

  /** The order in which a cursor visits segment buckets. */
  ghost function Ascending(ids: set<nat>): (r: seq<nat>)
    ensures |r| == |ids|
    ensures forall i | 0 <= i < |r| :: r[i] in ids
    ensures forall i, j | 0 <= i < j < |r| :: r[i] < r[j]
    ensures forall id <- ids :: id in r
  {
    if ids == {} then [] else
      var m := Max(ids);
      Ascending(ids - {m}) + [m]
  }

  function LoadSegment(id: nat, r: SegmentRecord, files: map<nat, seq<Entry>>): Result<SegmentSnapshot> {
    if r.path.None? then Failure("segment path missing")
    else if r.path.value !in files then Failure("error opening bolt segment")
    else Success(SegmentSnapshot(id, files[r.path.value], true, r.deleted))
  }

  /** The first segment that cannot be loaded fails the whole snapshot. */
  function LoadSegments(ids: seq<nat>, record: Record, files: map<nat, seq<Entry>>): Result<seq<SegmentSnapshot>>
    requires forall i | 0 <= i < |ids| :: ids[i] in record.segments
  {
    if ids == [] then Success([]) else
      var n := |ids| - 1;
      match LoadSegments(ids[..n], record, files)
      case Failure(e) => Failure(e)
      case Success(segments) =>
        match LoadSegment(ids[n], record.segments[ids[n]], files)
        case Failure(e) => Failure(e)
        case Success(s) => Success(segments + [s])
  }

  ghost function LoadSnapshot(record: Record, files: map<nat, seq<Entry>>, epoch: nat): Result<IndexSnapshot> {
    match LoadSegments(Ascending(record.segments.Keys), record, files)
    case Failure(e) => Failure(e)
    case Success(segments) => Success(IndexSnapshot(segments, Offsets(segments), record.internal, epoch))
  }

  /** One segment that cannot be loaded fails the snapshot. */
  lemma {:induction false} SegmentFails(ids: seq<nat>, record: Record, files: map<nat, seq<Entry>>, i: nat)
    requires (forall k | 0 <= k < |ids| :: ids[k] in record.segments) && i < |ids|
    requires LoadSegment(ids[i], record.segments[ids[i]], files).Failure?
    ensures LoadSegments(ids, record, files).Failure?
  {
    var n := |ids| - 1;
    if i < n {
      SegmentFails(ids[..n], record, files, i);
    }
  }

  lemma {:induction false} NotLoaded(record: Record, files: map<nat, seq<Entry>>, id: nat, epoch: nat)
    requires id in record.segments && LoadSegment(id, record.segments[id], files).Failure?
    ensures LoadSnapshot(record, files, epoch).Failure?
  {
    var ids := Ascending(record.segments.Keys);
    var i :| 0 <= i < |ids| && ids[i] == id;
    SegmentFails(ids, record, files, i);
  }

  /** The bucket names a file that is there. */
  predicate HasFile(r: SegmentRecord, files: map<nat, seq<Entry>>) { r.path.Some? && r.path.value in files }

  /** A segment as its bucket describes it: the documents of the named file and the deletes. */
  predicate AsRecorded(s: SegmentSnapshot, record: Record, files: map<nat, seq<Entry>>) {
    && s.id in record.segments && HasFile(record.segments[s.id], files) && s.file
    && s.docs == files[record.segments[s.id].path.value] && s.deleted == record.segments[s.id].deleted
  }

  lemma {:induction false} SegmentsLoadIff(ids: seq<nat>, record: Record, files: map<nat, seq<Entry>>)
    requires forall i | 0 <= i < |ids| :: ids[i] in record.segments
    ensures LoadSegments(ids, record, files).Success? <==> forall i | 0 <= i < |ids| :: HasFile(record.segments[ids[i]], files)
    ensures LoadSegments(ids, record, files).Success? ==>
              var segments := LoadSegments(ids, record, files).value;
              |segments| == |ids| && forall i | 0 <= i < |ids| :: segments[i].id == ids[i] && AsRecorded(segments[i], record, files)
  {
    if ids != [] {
      var n := |ids| - 1;
      SegmentsLoadIff(ids[..n], record, files);
      var one := LoadSegment(ids[n], record.segments[ids[n]], files);
      assert one.Success? <==> HasFile(record.segments[ids[n]], files);
      assert one.Success? ==> one.value.id == ids[n] && AsRecorded(one.value, record, files);
      hide AsRecorded, HasFile, LoadSegment;
      forall i | 0 <= i < n
        ensures ids[..n][i] == ids[i]
      {
      }
    }
  }

  /** The segments of a record, each once and in the order of their ids, with its internal values. */
  ghost predicate LoadedAs(snapshot: IndexSnapshot, record: Record, files: map<nat, seq<Entry>>) {
    && snapshot.internal == record.internal && snapshot.offsets == Offsets(snapshot.segments)
    && (forall id: nat :: id in record.segments <==> exists i :: 0 <= i < |snapshot.segments| && snapshot.segments[i].id == id)
    && (forall i, j | 0 <= i < j < |snapshot.segments| :: snapshot.segments[i].id < snapshot.segments[j].id)
    && (forall i | 0 <= i < |snapshot.segments| :: AsRecorded(snapshot.segments[i], record, files))
  }

  lemma {:induction false} SegmentsAreRecorded(segments: seq<SegmentSnapshot>, ids: seq<nat>, record: Record, files: map<nat, seq<Entry>>, epoch: nat)
    requires ids == Ascending(record.segments.Keys) && |segments| == |ids|
    requires forall i | 0 <= i < |ids| :: segments[i].id == ids[i] && AsRecorded(segments[i], record, files)
    ensures LoadedAs(IndexSnapshot(segments, Offsets(segments), record.internal, epoch), record, files)
  {
    hide Ascending, AsRecorded, Offsets;
    forall id | id in record.segments
      ensures exists i :: 0 <= i < |segments| && segments[i].id == id
    {
      var i :| 0 <= i < |ids| && ids[i] == id;
      assert segments[i].id == id;
    }
  }

  /** A record loads exactly when every segment bucket names a file that is there. */
  lemma {:induction false} LoadsIff(record: Record, files: map<nat, seq<Entry>>, epoch: nat)
    ensures LoadSnapshot(record, files, epoch).Success? <==> forall id <- record.segments :: HasFile(record.segments[id], files)
    ensures LoadSnapshot(record, files, epoch).Success? ==>
              LoadSnapshot(record, files, epoch).value.epoch == epoch && LoadedAs(LoadSnapshot(record, files, epoch).value, record, files)
  {
    hide Ascending, LoadSegments, HasFile, AsRecorded, LoadedAs, Offsets;
    var ids := Ascending(record.segments.Keys);
    SegmentsLoadIff(ids, record, files);
    var loaded := LoadSegments(ids, record, files);
    if loaded.Success? {
      SegmentsAreRecorded(loaded.value, ids, record, files, epoch);
      forall id | id in record.segments
        ensures HasFile(record.segments[id], files)
      {
        var i :| 0 <= i < |ids| && ids[i] == id;
      }
    }
  }

  /** Every segment has a path and its file is there. */
  predicate Loadable(record: Record, files: map<nat, seq<Entry>>) {
    forall id <- record.segments ::
      && record.segments[id].path == Some(id) && id in files
  }

  ghost function LoadedSegments(ids: seq<nat>, record: Record, files: map<nat, seq<Entry>>): (r: seq<SegmentSnapshot>)
    requires Loadable(record, files) && forall i | 0 <= i < |ids| :: ids[i] in record.segments
    ensures |r| == |ids|
  {
    seq(|ids|, i requires 0 <= i < |ids| => SegmentSnapshot(ids[i], files[ids[i]], true, record.segments[ids[i]].deleted))
  }

  lemma {:induction false} LoadSegmentsSucceeds(ids: seq<nat>, record: Record, files: map<nat, seq<Entry>>)
    requires forall i | 0 <= i < |ids| :: ids[i] in record.segments
    requires Loadable(record, files)
    ensures LoadSegments(ids, record, files) == Success(LoadedSegments(ids, record, files))
  {
    if ids != [] {
      var n := |ids| - 1;
      LoadSegmentsSucceeds(ids[..n], record, files);
      assert LoadedSegments(ids[..n], record, files) + [LoadedSegments(ids, record, files)[n]] == LoadedSegments(ids, record, files);
    }
  }

  /** The segments that a loadable record stands for. */
  ghost function SegmentsIn(record: Record, files: map<nat, seq<Entry>>): seq<SegmentSnapshot>
    requires Loadable(record, files)
  {
    LoadedSegments(Ascending(record.segments.Keys), record, files)
  }

  ghost predicate FilesHold(segments: seq<SegmentSnapshot>, files: map<nat, seq<Entry>>) {
    forall i | 0 <= i < |segments| :: segments[i].id in files && files[segments[i].id] == segments[i].docs
  }

  lemma {:induction false} WrittenIsLoadable(segments: seq<SegmentSnapshot>, record: Record, files: map<nat, seq<Entry>>)
    requires SegmentsOk(segments) && record.segments == RecordSegments(segments, {}) && FilesHold(segments, files)
    ensures Loadable(record, files) && record.Files() == Ids(segments) == record.segments.Keys
  {
    RecordSegmentsAt(segments, {});
    forall id | id in record.segments
      ensures record.segments[id].path == Some(id) && id in files
    {
      var i :| 0 <= i < |segments| && segments[i].id == id;
    }
  }

  /** Each loaded segment is the one that was written, now a file segment. */
  lemma {:induction false} LoadedMatches(segments: seq<SegmentSnapshot>, record: Record, files: map<nat, seq<Entry>>, i: nat)
    requires SegmentsOk(segments) && record.segments == RecordSegments(segments, {}) && FilesHold(segments, files)
    requires Loadable(record, files) && i < |SegmentsIn(record, files)|
    ensures FindSegment(segments, SegmentsIn(record, files)[i].id).Some?
    ensures FindSegment(segments, SegmentsIn(record, files)[i].id).value.(file := true) == SegmentsIn(record, files)[i]
    ensures SegmentsIn(record, files)[i].Ok()
  {
    RecordSegmentsAt(segments, {});
    var id := Ascending(record.segments.Keys)[i];
    assert id in record.segments && SegmentsIn(record, files)[i].id == id;
    var s := FindSegment(segments, id).value;
    var k :| 0 <= k < |segments| && segments[k] == s;
    assert record.segments[id] == RecordOf(s, {});
  }

  lemma {:induction false} AllMatch(segments: seq<SegmentSnapshot>, record: Record, files: map<nat, seq<Entry>>)
    requires SegmentsOk(segments) && record.segments == RecordSegments(segments, {}) && FilesHold(segments, files)
    requires Loadable(record, files)
    ensures forall i | 0 <= i < |SegmentsIn(record, files)| ::
              && SegmentsIn(record, files)[i].Ok() && FindSegment(segments, SegmentsIn(record, files)[i].id).Some?
              && FindSegment(segments, SegmentsIn(record, files)[i].id).value.(file := true) == SegmentsIn(record, files)[i]
  {
    hide SegmentsIn, RecordSegments, Loadable, FilesHold, FindSegment, SegmentsOk;
    forall i | 0 <= i < |SegmentsIn(record, files)|
      ensures SegmentsIn(record, files)[i].Ok() && FindSegment(segments, SegmentsIn(record, files)[i].id).Some?
      ensures FindSegment(segments, SegmentsIn(record, files)[i].id).value.(file := true) == SegmentsIn(record, files)[i]
    {
      LoadedMatches(segments, record, files, i);
    }
  }

  /** A snapshot comes back from bolt with the same documents, as file segments, in id order. */
  lemma {:induction false} WriteThenLoad(segments: seq<SegmentSnapshot>, record: Record, files: map<nat, seq<Entry>>, e: Entry)
    requires SegmentsOk(segments) && record.segments == RecordSegments(segments, {}) && FilesHold(segments, files)
    ensures Loadable(record, files)
    ensures SegmentsOk(SegmentsIn(record, files)) && Ids(SegmentsIn(record, files)) == Ids(segments)
    ensures Occurrences(Contents(SegmentsIn(record, files)), e) == Occurrences(Contents(segments), e)
  {
    hide SegmentsIn, Ascending, RecordSegments, Loadable, FilesHold, FindSegment, RecordOf, Occurrences, Kept;
    WrittenIsLoadable(segments, record, files);
    var loaded := SegmentsIn(record, files);
    AllMatch(segments, record, files);
    LoadedIds(record, files);
    RecordSegmentsAt(segments, {});
    CurrentIsItself(segments, loaded);
    SplitContents(segments, loaded, e);
    KeptNone(segments, Ids(loaded));
    NothingOccurs(e);
  }

  lemma {:induction false} NothingOccurs(e: Entry)
    ensures Occurrences(Contents([]), e) == 0
  {
  }

  lemma {:induction false} LoadedIds(record: Record, files: map<nat, seq<Entry>>)
    requires Loadable(record, files)
    ensures Ids(SegmentsIn(record, files)) == record.segments.Keys && DistinctIds(SegmentsIn(record, files))
  {
    hide Ascending;
    var ids, loaded := Ascending(record.segments.Keys), SegmentsIn(record, files);
    forall id | id in record.segments
      ensures id in Ids(loaded)
    {
      var i :| 0 <= i < |ids| && ids[i] == id;
      assert loaded[i].id == id;
    }
  }

  lemma {:induction false} CurrentIsItself(segments: seq<SegmentSnapshot>, loaded: seq<SegmentSnapshot>)
    requires forall i | 0 <= i < |loaded| ::
               && FindSegment(segments, loaded[i].id).Some?
               && FindSegment(segments, loaded[i].id).value.(file := true) == loaded[i]
    ensures CurrentAll(segments, loaded) == Contents(loaded)
  {
    if loaded != [] {
      CurrentIsItself(segments, loaded[..|loaded| - 1]);
    }
  }

  lemma {:induction false} KeptNone(segments: seq<SegmentSnapshot>, gone: set<nat>)
    requires Ids(segments) <= gone
    ensures Kept(segments, gone) == []
  {
    if segments != [] {
      var n := |segments| - 1;
      assert Ids(segments) == Ids(segments[..n]) + {segments[n].id};
      KeptNone(segments[..n], gone);
    }
  }
}
