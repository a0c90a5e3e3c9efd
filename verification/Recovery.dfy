/** Opening an index and rolling it back: loops over bolt cursors, whose keys are bytes. */
module Recovery {
  import opened Options
  import opened Segments
  import opened Snapshots
  import opened Introducer
  import opened Store
  import opened Protocol
  import opened Uvarint
  import opened BoltCursor

  // ---- one snapshot ----

  /** The cursor over a snapshot's bucket: the internal and the meta bucket, then the segments. */
  ghost predicate SnapshotCursor(keys: seq<Bytes>, record: Record) {
    && |keys| >= 2 && keys[0] == INTERNAL_KEY && keys[1] == META_KEY
    && CursorOf(keys[2..], record.segments.Keys)
  }

  /** It is what byte order makes of these keys. */
  lemma {:induction false} SnapshotCursorSorted(keys: seq<Bytes>, record: Record)
    requires SnapshotCursor(keys, record)
    ensures Sorted(keys)
  {
    hide LexLess, Encode;
    var rest := keys[2..];
    forall i, j | 0 <= i < j < |keys|
      ensures LexLess(keys[i], keys[j])
    {
      if j >= 2 {
        assert keys[j] == rest[j - 2] && KeyFor(rest[j - 2], record.segments.Keys);
        var n :| n in record.segments.Keys && n < TWO_64 && rest[j - 2] == Encode(n);
        NamesComeFirst(n);
        if i >= 2 {
          assert LexLess(rest[i - 2], rest[j - 2]);
        }
      } else {
        NamesComeFirst(0);
      }
    }
  }

  /** The segment keys decode, in order, to the ids of the record. */
  lemma {:induction false} SegmentKey(keys: seq<Bytes>, record: Record, i: nat)
    requires SnapshotCursor(keys, record) && i < |keys| - 2
    ensures |Ascending(record.segments.Keys)| == |keys| - 2
    ensures Ascending(record.segments.Keys)[i] in record.segments
    ensures Decode(keys[i + 2]) == Success(Decoded([], Ascending(record.segments.Keys)[i]))
    ensures keys[i + 2] != [] && keys[i + 2][0] != 'm' as int && keys[i + 2][0] != 'i' as int
  {
    CursorAscends(keys[2..], record.segments.Keys);
    KeyDecodes(Ascending(record.segments.Keys)[i]);
  }

  lemma {:induction false} KeyCount(keys: seq<Bytes>, record: Record)
    requires SnapshotCursor(keys, record)
    ensures |Ascending(record.segments.Keys)| == |keys| - 2
    ensures keys[0] == INTERNAL_KEY && keys[1] == META_KEY
  {
    hide LexLess, Encode, Ascending, CursorOf;
    CursorAscends(keys[2..], record.segments.Keys);
  }

  lemma {:induction false} KeyKind(keys: seq<Bytes>, record: Record, i: nat)
    requires SnapshotCursor(keys, record) && i < |keys|
    ensures |Ascending(record.segments.Keys)| == |keys| - 2 && keys[i] != []
    ensures (keys[i][0] == 'i' as int <==> i == 0) && (keys[i][0] == 'm' as int <==> i == 1)
  {
    hide SnapshotCursor, LexLess, Encode, Decode, Ascending;
    KeyCount(keys, record);
    if i >= 2 {
      SegmentKey(keys, record, i - 2);
    }
  }

  /** The segment under one key. */
  method LoadSegmentBucket(keys: seq<Bytes>, record: Record, files: map<nat, seq<Entry>>, ghost ids: seq<nat>, i: nat)
    returns (r: Result<SegmentSnapshot>)
    requires SnapshotCursor(keys, record) && ids == Ascending(record.segments.Keys) && i < |keys| - 2
    ensures i < |ids| && ids[i] in record.segments && r == LoadSegment(ids[i], record.segments[ids[i]], files)
  {
    hide *;
    SegmentKey(keys, record, i);
    var decoded := DecodeUvarintAscending(keys[i + 2]);
    r := LoadSegment(decoded.value.value, record.segments[decoded.value.value], files);
  }

  lemma {:induction false} LoadStep(ids: seq<nat>, i: nat, record: Record, files: map<nat, seq<Entry>>)
    requires i < |ids| && forall k | 0 <= k < |ids| :: ids[k] in record.segments
    requires LoadSegments(ids[..i], record, files).Success?
    ensures
      var one := LoadSegment(ids[i], record.segments[ids[i]], files);
      LoadSegments(ids[..i + 1], record, files)
        == if one.Failure? then Failure(one.error) else Success(LoadSegments(ids[..i], record, files).value + [one.value])
    ensures LoadSegment(ids[i], record.segments[ids[i]], files).Failure? ==>
              LoadSegments(ids, record, files) == Failure(LoadSegment(ids[i], record.segments[ids[i]], files).error)
  {
    assert ids[..i + 1][..i] == ids[..i];
    var one := LoadSegment(ids[i], record.segments[ids[i]], files);
    if one.Failure? {
      LoadFails(ids, i + 1, record, files, one.error);
    }
  }

  /** The first `n` segments are loaded. */
  ghost predicate SoFar(ids: seq<nat>, n: int, record: Record, files: map<nat, seq<Entry>>, segments: seq<SegmentSnapshot>,
                        offsets: seq<nat>, running: nat)
  {
    && 0 <= n <= |ids| && (forall k | 0 <= k < |ids| :: ids[k] in record.segments)
    && LoadSegments(ids[..n], record, files) == Success(segments)
    && offsets == Offsets(segments) && running == TotalDocs(segments)
  }

  lemma {:induction false} NoneSoFar(ids: seq<nat>, record: Record, files: map<nat, seq<Entry>>)
    requires forall k | 0 <= k < |ids| :: ids[k] in record.segments
    ensures SoFar(ids, 0, record, files, [], [], 0)
  {
  }

  lemma {:induction false} OneMore(ids: seq<nat>, n: nat, record: Record, files: map<nat, seq<Entry>>, segments: seq<SegmentSnapshot>,
                                   offsets: seq<nat>, running: nat, s: SegmentSnapshot)
    requires SoFar(ids, n, record, files, segments, offsets, running)
    requires n < |ids| && ids[n] in record.segments && LoadSegment(ids[n], record.segments[ids[n]], files) == Success(s)
    ensures SoFar(ids, n + 1, record, files, segments + [s], offsets + [running], running + |s.docs|)
  {
    LoadStep(ids, n, record, files);
    OffsetsSnoc(segments, s);
  }

  lemma {:induction false} OneFails(record: Record, files: map<nat, seq<Entry>>, epoch: nat, n: nat, segments: seq<SegmentSnapshot>,
                                    offsets: seq<nat>, running: nat, e: string)
    requires SoFar(Ascending(record.segments.Keys), n, record, files, segments, offsets, running)
    requires n < |Ascending(record.segments.Keys)| && Ascending(record.segments.Keys)[n] in record.segments
    requires LoadSegment(Ascending(record.segments.Keys)[n], record.segments[Ascending(record.segments.Keys)[n]], files) == Failure(e)
    ensures LoadSnapshot(record, files, epoch) == Failure(e)
  {
    LoadStep(Ascending(record.segments.Keys), n, record, files);
  }

  lemma {:induction false} AllLoaded(record: Record, files: map<nat, seq<Entry>>, epoch: nat, segments: seq<SegmentSnapshot>,
                                     offsets: seq<nat>, running: nat)
    requires SoFar(Ascending(record.segments.Keys), |Ascending(record.segments.Keys)|, record, files, segments, offsets, running)
    ensures LoadSnapshot(record, files, epoch) == Success(IndexSnapshot(segments, offsets, record.internal, epoch))
  {
    var ids := Ascending(record.segments.Keys);
    assert ids[..|ids|] == ids;
  }

  /** Loads what each key says until one segment cannot be loaded. */
  method LoadSnapshotBucket(keys: seq<Bytes>, record: Record, files: map<nat, seq<Entry>>, epoch: nat)
    returns (r: Result<IndexSnapshot>)
    requires SnapshotCursor(keys, record)
    ensures r == LoadSnapshot(record, files, epoch)
  {
    hide *;
    ghost var ids := Ascending(record.segments.Keys);
    KeyCount(keys, record);
    NoneSoFar(ids, record, files);
    var internal: map<string, string> := map[];
    var segments: seq<SegmentSnapshot> := [];
    var offsets: seq<nat> := [];
    var running: nat := 0;
    ghost var n: nat := 0;
    for i := 0 to |keys|
      invariant i > 0 ==> internal == record.internal
      invariant n == if i <= 2 then 0 else i - 2
      invariant SoFar(ids, n, record, files, segments, offsets, running)
    {
      KeyKind(keys, record, i);
      if keys[i][0] == 'i' as int {
        internal := record.internal;
      } else if keys[i][0] != 'm' as int {
        var one := LoadSegmentBucket(keys, record, files, ids, i - 2);
        if one.Failure? {
          OneFails(record, files, epoch, n, segments, offsets, running, one.error);
          return Failure(one.error);
        }
        OneMore(ids, n, record, files, segments, offsets, running, one.value);
        n := n + 1;
        segments, offsets := segments + [one.value], offsets + [running];
        running := running + |one.value.docs|;
      }
    }
    AllLoaded(record, files, epoch, segments, offsets, running);
    return Success(IndexSnapshot(segments, offsets, internal, epoch));
  }

  lemma {:induction false} LoadFails(ids: seq<nat>, n: nat, record: Record, files: map<nat, seq<Entry>>, e: string)
    requires n <= |ids| && forall i | 0 <= i < |ids| :: ids[i] in record.segments
    requires LoadSegments(ids[..n], record, files) == Failure(e)
    ensures LoadSegments(ids, record, files) == Failure(e)
  {
    if n < |ids| {
      assert ids[..|ids| - 1][..n] == ids[..n];
      LoadFails(ids[..|ids| - 1], n, record, files, e);
    } else {
      assert ids[..n] == ids;
    }
  }

  // ---- the newest snapshot that loads ----

  /** The cursors of all snapshot buckets. */
  ghost predicate Cursors(segmentKeys: map<nat, seq<Bytes>>, bolt: map<nat, Record>) {
    forall e <- bolt :: e in segmentKeys && SnapshotCursor(segmentKeys[e], bolt[e])
  }

  /** The epoch under key `i`. */
  method EpochAt(keys: seq<Bytes>, ghost epochs: seq<nat>, ghost numbers: set<nat>, i: nat) returns (epoch: nat)
    requires CursorOf(keys, numbers) && epochs == Ascending(numbers) && i < |keys|
    ensures i < |epochs| && epoch == epochs[i] && epoch in numbers && epoch < TWO_64
  {
    hide *;
    CursorAscends(keys, numbers);
    KeyEpoch(epochs, i);
    KeyDecodes(epochs[i]);
    var decoded := DecodeUvarintAscending(keys[i]);
    epoch := decoded.value.value;
  }

  lemma {:induction false} KeyEpoch(epochs: seq<nat>, i: nat)
    requires AllFit(epochs) && i < |epochs|
    ensures epochs[i] < TWO_64
  {
  }

  lemma {:induction false} FirstFrom(epochs: seq<nat>, i: nat, bolt: map<nat, Record>, files: map<nat, seq<Entry>>)
    requires (forall k | 0 <= k < |epochs| :: epochs[k] in bolt) && i < |epochs|
    ensures FirstLoadable(epochs[..i + 1], bolt, files)
         == match LoadSnapshot(bolt[epochs[i]], files, epochs[i])
            case Success(snapshot) => Some(snapshot)
            case Failure(_) => FirstLoadable(epochs[..i], bolt, files)
  {
    hide LoadSnapshot;
    assert epochs[..i + 1][..i] == epochs[..i];
  }

  function From(epochs: seq<nat>, i: nat): set<nat> {
    set k | i <= k < |epochs| :: epochs[k]
  }

  function SetOf(a: seq<nat>): set<nat> { set x | x in a }

  lemma {:induction false} SetOfSnoc(a: seq<nat>, x: nat)
    ensures SetOf(a + [x]) == SetOf(a) + {x}
  {
  }

  function EpochIn(root: Option<IndexSnapshot>): set<nat> {
    if root.Some? then {root.value.epoch} else {}
  }

  /** What the loop over the epochs from the newest down to position `i` has found. */
  ghost predicate Found(epochs: seq<nat>, i: int, bolt: map<nat, Record>, files: map<nat, seq<Entry>>,
                        root: Option<IndexSnapshot>, eligible: seq<nat>)
  {
    && 0 <= i <= |epochs| && (forall k | 0 <= k < |epochs| :: epochs[k] in bolt)
    && (if root.None? then FirstLoadable(epochs[..i], bolt, files) == FirstLoadable(epochs, bolt, files)
        else root == FirstLoadable(epochs, bolt, files) && root.value.epoch in From(epochs, i))
    && SetOf(eligible) == From(epochs, i) - EpochIn(root)
  }

  ghost predicate Climbs(epochs: seq<nat>) {
    forall i, j | 0 <= i < j < |epochs| :: epochs[i] < epochs[j]
  }

  lemma {:induction false} AllFrom(numbers: set<nat>, epochs: seq<nat>)
    requires (forall e <- numbers :: e in epochs) && forall k | 0 <= k < |epochs| :: epochs[k] in numbers
    ensures From(epochs, 0) == numbers
  {
    forall e | e in numbers
      ensures e in From(epochs, 0)
    {
      var k :| 0 <= k < |epochs| && epochs[k] == e;
    }
  }

  /** The epochs in bolt, from the oldest to the newest. */
  lemma {:induction false} EpochsOf(bolt: map<nat, Record>) returns (epochs: seq<nat>)
    ensures epochs == Ascending(bolt.Keys) && Climbs(epochs) && From(epochs, 0) == bolt.Keys
    ensures forall k | 0 <= k < |epochs| :: epochs[k] in bolt
  {
    epochs := Ascending(bolt.Keys);
    AllFrom(bolt.Keys, epochs);
    hide From;
  }

  lemma {:induction false} NothingFound(epochs: seq<nat>, bolt: map<nat, Record>, files: map<nat, seq<Entry>>)
    requires forall k | 0 <= k < |epochs| :: epochs[k] in bolt
    ensures Found(epochs, |epochs|, bolt, files, None, [])
  {
    hide FirstLoadable;
    assert epochs[..|epochs|] == epochs;
  }

  lemma {:induction false} FromStep(epochs: seq<nat>, i: nat)
    requires Climbs(epochs) && i < |epochs|
    ensures From(epochs, i) == From(epochs, i + 1) + {epochs[i]} && epochs[i] !in From(epochs, i + 1)
  {
  }

  lemma {:induction false} FoundStep(epochs: seq<nat>, bolt: map<nat, Record>, files: map<nat, seq<Entry>>, i: nat,
                                     root: Option<IndexSnapshot>, eligible: seq<nat>)
    requires Climbs(epochs) && Found(epochs, i + 1, bolt, files, root, eligible)
    ensures
      var loaded := LoadSnapshot(bolt[epochs[i]], files, epochs[i]);
      if root.None? && loaded.Success? then Found(epochs, i, bolt, files, Some(loaded.value), eligible)
      else Found(epochs, i, bolt, files, root, eligible + [epochs[i]])
  {
    hide FirstLoadable, LoadSnapshot, From, SetOf, Climbs;
    FirstFrom(epochs, i, bolt, files);
    EpochOf(bolt[epochs[i]], files, epochs[i]);
    FromStep(epochs, i);
    SetOfSnoc(eligible, epochs[i]);
  }

  lemma {:induction false} EpochOf(record: Record, files: map<nat, seq<Entry>>, epoch: nat)
    ensures LoadSnapshot(record, files, epoch).Success? ==> LoadSnapshot(record, files, epoch).value.epoch == epoch
  {
  }

  /** Opening: the newest epoch that loads becomes the root; all others may be removed. */
  method LoadFromBolt(keys: seq<Bytes>, segmentKeys: map<nat, seq<Bytes>>, bolt: map<nat, Record>, files: map<nat, seq<Entry>>)
    returns (root: Option<IndexSnapshot>, eligible: seq<nat>)
    requires CursorOf(keys, bolt.Keys) && Cursors(segmentKeys, bolt)
    ensures root == FirstLoadable(Ascending(bolt.Keys), bolt, files)
    ensures SetOf(eligible) == bolt.Keys - EpochIn(root)
    ensures NewestLoadable(bolt, files, root)
    ensures forall e: nat :: e in eligible <==> e in bolt && (root.Some? ==> e != root.value.epoch)
  {
    hide *;
    ghost var epochs := EpochsOf(bolt);
    CursorLength(keys, bolt.Keys);
    NothingFound(epochs, bolt, files);
    root, eligible := None, [];
    var i := |keys|;
    while i > 0
      invariant 0 <= i <= |keys| == |epochs|
      invariant Found(epochs, i, bolt, files, root, eligible)
    {
      i := i - 1;
      var epoch := EpochAt(keys, epochs, bolt.Keys, i);
      FoundStep(epochs, bolt, files, i, root, eligible);
      if root.Some? {
        eligible := eligible + [epoch];
      } else {
        CursorIn(segmentKeys, bolt, epoch);
        var loaded := LoadSnapshotBucket(segmentKeys[epoch], bolt[epoch], files, epoch);
        if loaded.Failure? {
          eligible := eligible + [epoch];
        } else {
          root := Some(loaded.value);
        }
      }
    }
    FoundAll(epochs, bolt, files, root, eligible);
    FirstIsNewest(bolt, files);
    EligibleAre(bolt, root, eligible);
  }

  /** The snapshot opened is that of the newest epoch whose record loads; there is none if no record does. */
  ghost predicate NewestLoadable(bolt: map<nat, Record>, files: map<nat, seq<Entry>>, root: Option<IndexSnapshot>) {
    match root
    case None => forall e <- bolt :: LoadSnapshot(bolt[e], files, e).Failure?
    case Some(snapshot) =>
      && snapshot.epoch in bolt && LoadSnapshot(bolt[snapshot.epoch], files, snapshot.epoch) == Success(snapshot)
      && forall e <- bolt | e > snapshot.epoch :: LoadSnapshot(bolt[e], files, e).Failure?
  }

  ghost predicate Fails(bolt: map<nat, Record>, files: map<nat, seq<Entry>>, e: nat) {
    e in bolt && LoadSnapshot(bolt[e], files, e).Failure?
  }

  ghost predicate Loads(bolt: map<nat, Record>, files: map<nat, seq<Entry>>, snapshot: IndexSnapshot) {
    snapshot.epoch in bolt && LoadSnapshot(bolt[snapshot.epoch], files, snapshot.epoch) == Success(snapshot)
  }

  /** The place of the epoch that is opened, -1 if none loads. */
  lemma {:induction false} FirstLoadableAt(epochs: seq<nat>, bolt: map<nat, Record>, files: map<nat, seq<Entry>>) returns (k: int)
    requires forall i | 0 <= i < |epochs| :: epochs[i] in bolt
    ensures -1 <= k < |epochs| && (k == -1 <==> FirstLoadable(epochs, bolt, files).None?)
    ensures k >= 0 ==> Loads(bolt, files, FirstLoadable(epochs, bolt, files).value)
    ensures k >= 0 ==> FirstLoadable(epochs, bolt, files).value.epoch == epochs[k]
    ensures forall i | k < i < |epochs| :: Fails(bolt, files, epochs[i])
  {
    hide LoadSnapshot;
    if epochs == [] {
      k := -1;
    } else {
      var n := |epochs| - 1;
      EpochLoaded(bolt[epochs[n]], files, epochs[n]);
      if LoadSnapshot(bolt[epochs[n]], files, epochs[n]).Failure? {
        k := FirstLoadableAt(epochs[..n], bolt, files);
        assert Fails(bolt, files, epochs[n]);
        hide Fails, Loads;
        forall i | k < i < |epochs|
          ensures Fails(bolt, files, epochs[i])
        {
          assert i < n ==> epochs[..n][i] == epochs[i];
        }
      } else {
        k := n;
      }
    }
  }

  lemma {:induction false} EpochLoaded(record: Record, files: map<nat, seq<Entry>>, epoch: nat)
    ensures LoadSnapshot(record, files, epoch).Success? ==> LoadSnapshot(record, files, epoch).value.epoch == epoch
  {
  }

  lemma {:induction false} FirstIsNewest(bolt: map<nat, Record>, files: map<nat, seq<Entry>>)
    ensures NewestLoadable(bolt, files, FirstLoadable(Ascending(bolt.Keys), bolt, files))
  {
    hide FirstLoadable, LoadSnapshot, Ascending;
    var epochs := Ascending(bolt.Keys);
    var k := FirstLoadableAt(epochs, bolt, files);
    forall e | e in bolt && (k == -1 || e > epochs[k])
      ensures Fails(bolt, files, e)
    {
      var i :| 0 <= i < |epochs| && epochs[i] == e;
    }
  }

  lemma {:induction false} EligibleAre(bolt: map<nat, Record>, root: Option<IndexSnapshot>, eligible: seq<nat>)
    requires SetOf(eligible) == bolt.Keys - EpochIn(root)
    ensures forall e: nat :: e in eligible <==> e in bolt && (root.Some? ==> e != root.value.epoch)
  {
    forall e: nat
      ensures e in eligible <==> e in SetOf(eligible)
    {
    }
    hide SetOf;
  }

  lemma {:induction false} CursorIn(segmentKeys: map<nat, seq<Bytes>>, bolt: map<nat, Record>, epoch: nat)
    requires Cursors(segmentKeys, bolt) && epoch in bolt
    ensures epoch in segmentKeys && SnapshotCursor(segmentKeys[epoch], bolt[epoch])
  {
  }

  lemma {:induction false} CursorLength(keys: seq<Bytes>, numbers: set<nat>)
    requires CursorOf(keys, numbers)
    ensures |keys| == |Ascending(numbers)|
  {
    hide CursorOf, Ascending, Encode;
    CursorAscends(keys, numbers);
  }

  lemma {:induction false} FoundAll(epochs: seq<nat>, bolt: map<nat, Record>, files: map<nat, seq<Entry>>,
                                    root: Option<IndexSnapshot>, eligible: seq<nat>)
    requires Found(epochs, 0, bolt, files, root, eligible) && From(epochs, 0) == bolt.Keys
    ensures root == FirstLoadable(epochs, bolt, files)
    ensures SetOf(eligible) == bolt.Keys - EpochIn(root)
  {
    assert FirstLoadable(epochs[..0], bolt, files) == None;
    hide FirstLoadable, SetOf, From;
  }

  // ---- the directory ----

  /** A name in the index directory: a segment file with its number, a segment file whose name is no
      hexadecimal number, or something else. */
  datatype DirEntry = SegmentFile(id: nat) | UnreadableName | OtherFile

  /** The largest number of a segment file, or 0; an error when some segment file's name is no number. */
  method MaxSegmentIDOnDisk(names: seq<DirEntry>) returns (rv: Result<nat>)
    ensures rv.Failure? <==> UnreadableName in names
    ensures rv.Success? ==> forall i | 0 <= i < |names| && names[i].SegmentFile? :: names[i].id <= rv.value
    ensures rv.Success? ==> rv.value == 0 || SegmentFile(rv.value) in names
  {
    var max := 0;
    for i := 0 to |names|
      invariant UnreadableName !in names[..i]
      invariant forall k | 0 <= k < i && names[k].SegmentFile? :: names[k].id <= max
      invariant max == 0 || SegmentFile(max) in names
    {
      match names[i] {
        case OtherFile =>
        case UnreadableName => return Failure("invalid segment file name");
        case SegmentFile(id) =>
          if id > max {
            max := id;
          }
      }
    }
    return Success(max);
  }

  // ---- the files that bolt lists ----

  /** The path in the bucket under one key of a snapshot: the meta bucket has none. */
  method PathUnder(keys: seq<Bytes>, record: Record, ghost ids: seq<nat>, i: nat) returns (path: Option<nat>)
    requires SnapshotCursor(keys, record) && ids == Ascending(record.segments.Keys) && 0 < i < |keys|
    ensures |ids| == |keys| - 2 && (i == 1 ==> path == None)
    ensures i > 1 ==> ids[i - 2] in record.segments && path == record.segments[ids[i - 2]].path
  {
    hide *;
    KeyCount(keys, record);
    KeyKind(keys, record, i);
    if keys[i][0] == 'm' as int {
      return None;
    }
    SegmentKey(keys, record, i - 2);
    var decoded := DecodeUvarintAscending(keys[i]);
    path := record.segments[decoded.value.value].path;
  }

  /** The paths in the first `n` segment buckets. */
  ghost function PathsOf(record: Record, ids: seq<nat>, n: int): set<nat> {
    set k | 0 <= k < n && k < |ids| && ids[k] in record.segments && record.segments[ids[k]].path.Some? :: record.segments[ids[k]].path.value
  }

  lemma {:induction false} PathsStep(record: Record, ids: seq<nat>, n: nat)
    requires n < |ids| && ids[n] in record.segments
    ensures
      var path := record.segments[ids[n]].path;
      PathsOf(record, ids, n + 1) == if path.Some? then PathsOf(record, ids, n) + {path.value} else PathsOf(record, ids, n)
  {
  }

  lemma {:induction false} AllPaths(record: Record, ids: seq<nat>)
    requires ids == Ascending(record.segments.Keys)
    ensures PathsOf(record, ids, 0) == {} && PathsOf(record, ids, |ids|) == record.Files()
  {
    AscendingShowsAll(record.segments.Keys);
    hide Ascending;
    forall f | f in record.Files()
      ensures f in PathsOf(record, ids, |ids|)
    {
      var id :| id in record.segments && record.segments[id].path == Some(f);
      var k :| 0 <= k < |ids| && ids[k] == id;
    }
  }

  lemma {:induction false} AscendingShowsAll(numbers: set<nat>)
    ensures forall n <- numbers :: n in Ascending(numbers)
  {
  }

  /** Walks a snapshot's bucket: the internal values are skipped, buckets without a path too. */
  method SegmentPaths(keys: seq<Bytes>, record: Record) returns (paths: set<nat>)
    requires SnapshotCursor(keys, record)
    ensures paths == record.Files()
  {
    hide *;
    ghost var ids := Ascending(record.segments.Keys);
    KeyCount(keys, record);
    AllPaths(record, ids);
    paths := {};
    for i := 0 to |keys|
      invariant paths == PathsOf(record, ids, if i < 2 then 0 else i - 2)
    {
      KeyKind(keys, record, i);
      if keys[i][0] != 'i' as int {
        var path := PathUnder(keys, record, ids, i);
        if i > 1 {
          PathsStep(record, ids, i - 2);
        }
        if path.Some? {
          paths := paths + {path.value};
        }
      }
    }
  }

  ghost predicate FilesUpTo(bolt: map<nat, Record>, epochs: seq<nat>, n: nat, live: set<nat>) {
    forall id: nat :: id in live <==> exists k :: 0 <= k < n && k < |epochs| && epochs[k] in bolt && id in bolt[epochs[k]].Files()
  }

  lemma {:induction false} FilesStep(bolt: map<nat, Record>, epochs: seq<nat>, n: nat, live: set<nat>)
    requires FilesUpTo(bolt, epochs, n, live) && n < |epochs| && epochs[n] in bolt
    ensures FilesUpTo(bolt, epochs, n + 1, live + bolt[epochs[n]].Files())
  {
    hide Record.Files;
    var now := live + bolt[epochs[n]].Files();
    forall id: nat
      ensures id in now <==> exists k :: 0 <= k < n + 1 && k < |epochs| && epochs[k] in bolt && id in bolt[epochs[k]].Files()
    {
      if k :| 0 <= k < n + 1 && k < |epochs| && epochs[k] in bolt && id in bolt[epochs[k]].Files() {
        assert k < n ==> id in live;
      }
    }
  }

  lemma {:induction false} AllFiles(bolt: map<nat, Record>, live: set<nat>)
    requires FilesUpTo(bolt, Ascending(bolt.Keys), |Ascending(bolt.Keys)|, live)
    ensures live == BoltFiles(bolt)
  {
    hide Record.Files;
    var epochs := Ascending(bolt.Keys);
    forall id: nat
      ensures id in live <==> id in BoltFiles(bolt)
    {
      if id in BoltFiles(bolt) {
        var e :| e in bolt && id in bolt[e].Files();
        var k :| 0 <= k < |epochs| && epochs[k] == e;
      }
    }
  }

  lemma {:induction false} NoFiles(bolt: map<nat, Record>, epochs: seq<nat>)
    ensures FilesUpTo(bolt, epochs, 0, {})
  {
  }

  /** Every file that some snapshot in bolt lists. */
  method LoadZapFileNames(keys: seq<Bytes>, segmentKeys: map<nat, seq<Bytes>>, bolt: map<nat, Record>) returns (live: set<nat>)
    requires CursorOf(keys, bolt.Keys) && Cursors(segmentKeys, bolt)
    ensures live == BoltFiles(bolt)
  {
    hide *;
    ghost var epochs := Ascending(bolt.Keys);
    CursorLength(keys, bolt.Keys);
    NoFiles(bolt, epochs);
    live := {};
    for i := 0 to |keys|
      invariant FilesUpTo(bolt, epochs, i, live)
    {
      var epoch := EpochAt(keys, epochs, bolt.Keys, i);
      CursorIn(segmentKeys, bolt, epoch);
      var paths := SegmentPaths(segmentKeys[epoch], bolt[epoch]);
      FilesStep(bolt, epochs, i, live);
      live := live + paths;
    }
    AllFiles(bolt, live);
  }

  // ---- rolling back ----

  /** Removes every epoch above the target from bolt, provided the target is there. */
  method Rollback(keys: seq<Bytes>, bolt: map<nat, Record>, to: nat) returns (r: Result<map<nat, Record>>)
    requires CursorOf(keys, bolt.Keys)
    ensures to in bolt ==> r == Success(UpToEpoch(bolt, to))
    ensures to in bolt ==> r.Success? && (forall e: nat :: e in r.value <==> e in bolt && e <= to)
                           && forall e <- r.value :: e in bolt && r.value[e] == bolt[e]
    ensures to !in bolt ==> r.Failure?
  {
    hide *;
    ghost var epochs := EpochsOf(bolt);
    CursorLength(keys, bolt.Keys);
    NothingPicked(epochs, to);
    var found, eligibleEpochs: seq<nat> := false, [];
    var i := |keys|;
    while i > 0 && !found
      invariant 0 <= i <= |keys| == |epochs|
      invariant Picked(epochs, i, to, found, eligibleEpochs)
    {
      i := i - 1;
      var snapshotEpoch := EpochAt(keys, epochs, bolt.Keys, i);
      PickStep(epochs, i, to, eligibleEpochs);
      if snapshotEpoch == to {
        found := true;
      }
      eligibleEpochs := eligibleEpochs + [snapshotEpoch];
    }
    PickedAll(epochs, i, to, found, eligibleEpochs, bolt);
    if |eligibleEpochs| == 0 {
      return Failure("no persisted epochs found in bolt");
    }
    if !found {
      return Failure("target epoch not found in bolt");
    }
    var left := DeleteNewer(bolt, eligibleEpochs, to);
    UpToEpochIs(bolt, to);
    return Success(left);
  }

  lemma {:induction false} UpToEpochIs(bolt: map<nat, Record>, to: nat)
    ensures forall e: nat :: e in UpToEpoch(bolt, to) <==> e in bolt && e <= to
    ensures forall e <- UpToEpoch(bolt, to) :: e in bolt && UpToEpoch(bolt, to)[e] == bolt[e]
  {
  }

  /** What the loop that picks the epochs from the newest down to the target has picked. */
  ghost predicate Picked(epochs: seq<nat>, i: int, to: nat, found: bool, picked: seq<nat>) {
    && 0 <= i <= |epochs| && SetOf(picked) == From(epochs, i)
    && (found <==> to in From(epochs, i))
    && (found ==> i < |epochs| && epochs[i] == to && |picked| > 0 && picked[|picked| - 1] == to)
    && (forall k | 0 <= k < |picked| - 1 :: picked[k] != to)
    && (!found ==> |picked| > 0 ==> picked[|picked| - 1] != to)
    && (picked == [] <==> i == |epochs|)
  }

  lemma {:induction false} NothingPicked(epochs: seq<nat>, to: nat)
    ensures Picked(epochs, |epochs|, to, false, [])
  {
  }

  lemma {:induction false} PickStep(epochs: seq<nat>, i: nat, to: nat, picked: seq<nat>)
    requires Climbs(epochs) && Picked(epochs, i + 1, to, false, picked)
    ensures Picked(epochs, i, to, epochs[i] == to, picked + [epochs[i]])
  {
    FromStep(epochs, i);
    SetOfSnoc(picked, epochs[i]);
    hide From, SetOf, Climbs;
  }

  lemma {:induction false} PickedAll(epochs: seq<nat>, i: nat, to: nat, found: bool, picked: seq<nat>, bolt: map<nat, Record>)
    requires Climbs(epochs) && From(epochs, 0) == bolt.Keys && Picked(epochs, i, to, found, picked) && (i == 0 || found)
    ensures found <==> to in bolt
    ensures found ==> picked != [] && picked[|picked| - 1] == to && (forall k | 0 <= k < |picked| - 1 :: picked[k] != to)
    ensures found ==> (map e | e in bolt && (e !in picked || e == to) :: bolt[e]) == UpToEpoch(bolt, to)
  {
    if found {
      forall e | e in bolt
        ensures e in picked && e != to <==> e > to
      {
        assert e in From(epochs, 0);
        assert e in picked <==> e in SetOf(picked);
        var k :| 0 <= k < |epochs| && epochs[k] == e;
        assert e in From(epochs, i) <==> k >= i;
      }
      assert to in bolt by { assert to in From(epochs, 0); }
    } else {
      assert to in From(epochs, 0) <==> to in bolt;
    }
  }

  /** Deletes buckets in order, up to the target. */
  method DeleteNewer(bolt: map<nat, Record>, eligibleEpochs: seq<nat>, to: nat) returns (left: map<nat, Record>)
    requires |eligibleEpochs| > 0 && eligibleEpochs[|eligibleEpochs| - 1] == to
    requires forall k | 0 <= k < |eligibleEpochs| - 1 :: eligibleEpochs[k] != to
    ensures left == map e | e in bolt && (e !in eligibleEpochs || e == to) :: bolt[e]
  {
    left := bolt;
    for i := 0 to |eligibleEpochs|
      invariant i < |eligibleEpochs|
      invariant left == map e | e in bolt && e !in eligibleEpochs[..i] :: bolt[e]
    {
      if eligibleEpochs[i] == to {
        return;
      }
      left := left - {eligibleEpochs[i]};
    }
  }
}
