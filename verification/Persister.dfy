/** The persister's loops: preparing a batch, choosing what to merge in memory, the stand-in for a
    captured snapshot, and preparing a bucket. Each is tied to the function that the protocol uses for it. */
module Persister {
  import opened Options
  import opened Segments
  import opened Snapshots
  import opened IndexSpec
  import opened Store
  import opened Protocol
  import Merger

  // ---- optimistic obsoletes ----

  method PrepareSegment(id: nat, root: seq<SegmentSnapshot>, data: seq<Entry>, ids: set<DocId>, internalOps: map<string, Option<string>>)
    returns (introduction: SegmentIntroduction)
    ensures introduction == SegmentIntroduction(id, data, Obsoletes(root, ids), ids, internalOps)
  {
    var obsoletes: map<nat, set<nat>> := map[];
    for i := 0 to |root|
      invariant obsoletes == Obsoletes(root[..i], ids)
    {
      assert root[..i + 1][..i] == root[..i];
      obsoletes := obsoletes[root[i].id := DocNumbers(root[i].docs, ids)];
    }
    assert root[..|root|] == root;
    introduction := SegmentIntroduction(id, data, obsoletes, ids, internalOps);
  }

  // ---- the one-shot flush ----

  /** The positions pick, from first to last, the segments that are no files. */
  ghost predicate PicksMemory(segments: seq<SegmentSnapshot>, flushable: seq<SegmentSnapshot>, positions: seq<nat>) {
    && flushable == MemorySegments(segments) && |positions| == |flushable|
    && (forall j, k | 0 <= j < k < |positions| :: positions[j] < positions[k])
    && (forall k | 0 <= k < |positions| :: positions[k] < |segments| && segments[positions[k]] == flushable[k])
    && (forall p | 0 <= p < |segments| :: p in positions <==> !segments[p].file)
  }

  /** The segments to merge and their positions. */
  method CollectFlushable(segments: seq<SegmentSnapshot>) returns (flushable: seq<SegmentSnapshot>, positions: seq<nat>)
    ensures PicksMemory(segments, flushable, positions)
  {
    hide *;
    flushable, positions := [], [];
    NothingPicked(segments);
    for i := 0 to |segments|
      invariant PicksMemory(segments[..i], flushable, positions)
    {
      PickStep(segments, i, flushable, positions);
      if !segments[i].file {
        flushable, positions := flushable + [segments[i]], positions + [i];
      }
    }
    assert segments[..|segments|] == segments;
  }

  lemma {:induction false} NothingPicked(segments: seq<SegmentSnapshot>)
    ensures PicksMemory(segments[..0], [], [])
  {
  }

  lemma {:induction false} PickStep(segments: seq<SegmentSnapshot>, i: nat, flushable: seq<SegmentSnapshot>, positions: seq<nat>)
    requires i < |segments| && PicksMemory(segments[..i], flushable, positions)
    ensures if segments[i].file then PicksMemory(segments[..i + 1], flushable, positions)
            else PicksMemory(segments[..i + 1], flushable + [segments[i]], positions + [i])
  {
    var now := segments[..i + 1];
    assert now[..i] == segments[..i];
    forall k | 0 <= k < |positions|
      ensures positions[k] < i && now[positions[k]] == segments[..i][positions[k]]
    {
    }
    if !segments[i].file {
      forall p | 0 <= p < |now|
        ensures p in positions + [i] <==> !now[p].file
      {
        assert p < i ==> now[p] == segments[..i][p];
      }
    } else {
      forall p | 0 <= p < |now|
        ensures p in positions <==> !now[p].file
      {
        assert p < i ==> now[p] == segments[..i][p];
        assert p in positions ==> exists k :: 0 <= k < |positions| && positions[k] == p;
      }
    }
  }

  /** Handed to `Merger.MergeInMemorySegments` as the only flushable, the positions make the merge
      that the protocol takes: of all in-memory segments into one file. */
  lemma {:induction false} OneShotPicks(segments: seq<SegmentSnapshot>, flushable: seq<SegmentSnapshot>, positions: seq<nat>)
    requires DistinctIds(segments) && PicksMemory(segments, flushable, positions)
    ensures Merger.Picks(segments, [positions]) == [MemorySegments(segments)]
    ensures DistinctIds(Flat(Merger.Picks(segments, [positions])))
  {
    var picked := Merger.Picks(segments, [positions]);
    assert [positions][0] == positions;
    assert picked[0] == flushable;
    assert picked == [flushable];
    Merger.FlatOne(flushable);
    forall j, k | 0 <= j < k < |flushable|
      ensures flushable[j].id != flushable[k].id
    {
      assert positions[j] < positions[k];
    }
  }

  lemma {:induction false} OneShotCanBeMerged(s: State, flushable: seq<SegmentSnapshot>, positions: seq<nat>, m: SegmentMerge)
    requires s.flush.Flushing? && s.flush.phase == Captured(true) && DistinctIds(s.flush.snapshot.segments)
    requires PicksMemory(s.flush.snapshot.segments, flushable, positions) && |flushable| >= MIN_SEGMENTS_FOR_IN_MEMORY_MERGE
    requires BuiltFrom(m, Merger.Picks(s.flush.snapshot.segments, [positions])) && m.ids == [s.nextSegmentId + 1]
    requires forall w | 0 <= w < |m.news| :: m.news[w].Some?
    ensures CanMergeInMemory(s, m)
  {
    hide MemorySegments, DistinctIds, PicksMemory;
    Members(s.flush.snapshot.segments, flushable, positions);
    OneShotPicks(s.flush.snapshot.segments, flushable, positions);
  }

  lemma {:induction false} Members(segments: seq<SegmentSnapshot>, flushable: seq<SegmentSnapshot>, positions: seq<nat>)
    requires PicksMemory(segments, flushable, positions)
    ensures flushable == MemorySegments(segments) && forall k | 0 <= k < |positions| :: positions[k] < |segments|
  {
  }

  /** The snapshot to persist in place of the captured one: what was not merged, then the new
      segment as the root lists it, without the deletes made since. */
  method Equivalent(segments: seq<SegmentSnapshot>, merged: set<nat>, root: seq<SegmentSnapshot>, newIds: set<nat>)
    returns (equiv: seq<SegmentSnapshot>, exclude: set<nat>)
    ensures exclude == Ids(segments) - merged
    ensures equiv == NotMerged(segments, merged) + WithoutDeletes(root, newIds)
  {
    equiv, exclude := [], {};
    for i := 0 to |segments|
      invariant equiv == NotMerged(segments[..i], merged)
      invariant exclude == Ids(segments[..i]) - merged
    {
      assert segments[..i + 1][..i] == segments[..i];
      assert Ids(segments[..i + 1]) == Ids(segments[..i]) + {segments[i].id};
      if segments[i].id !in merged {
        equiv, exclude := equiv + [segments[i]], exclude + {segments[i].id};
      }
    }
    assert segments[..|segments|] == segments;
    ghost var kept := equiv;
    for i := 0 to |root|
      invariant equiv == kept + WithoutDeletes(root[..i], newIds)
    {
      assert root[..i + 1][..i] == root[..i];
      if root[i].id in newIds {
        equiv := equiv + [root[i].(deleted := {})];
      }
    }
    assert root[..|root|] == root;
  }

  function NotMerged(segments: seq<SegmentSnapshot>, merged: set<nat>): seq<SegmentSnapshot> {
    if segments == [] then [] else
      var n := |segments| - 1;
      if segments[n].id !in merged then NotMerged(segments[..n], merged) + [segments[n]] else NotMerged(segments[..n], merged)
  }

  function WithoutDeletes(root: seq<SegmentSnapshot>, newIds: set<nat>): seq<SegmentSnapshot> {
    if root == [] then [] else
      var n := |root| - 1;
      if root[n].id in newIds then WithoutDeletes(root[..n], newIds) + [root[n].(deleted := {})] else WithoutDeletes(root[..n], newIds)
  }

  /** When the in-memory segments were merged into `out` and the root lists it, whatever deletes it
      has there, the stand-in is the one that the protocol writes. */
  lemma {:induction false} EquivalentIsStandIn(segments: seq<SegmentSnapshot>, root: seq<SegmentSnapshot>, out: nat)
    requires SegmentsOk(segments) && DistinctIds(root)
    requires FindSegment(root, out).Some?
    requires FindSegment(root, out).value.docs == Segments.Merged(MemorySegments(segments)) && FindSegment(root, out).value.file
    ensures NotMerged(segments, Ids(MemorySegments(segments))) + WithoutDeletes(root, {out}) == EquivalentSegments(segments, out)
  {
    NotMergedAreFiles(segments, Ids(MemorySegments(segments)));
    OnlyOut(root, out);
  }

  lemma {:induction false} MemoryIds(segments: seq<SegmentSnapshot>, i: nat)
    requires DistinctIds(segments) && i < |segments|
    ensures segments[i].id in Ids(MemorySegments(segments)) <==> !segments[i].file
  {
    var n := |segments| - 1;
    var before := MemorySegments(segments[..n]);
    MemoryAmong(segments[..n]);
    if !segments[n].file {
      assert MemorySegments(segments)[|before|] == segments[n];
      assert forall k | 0 <= k < |before| :: MemorySegments(segments)[k] == before[k];
      assert Ids(MemorySegments(segments)) == Ids(before) + {segments[n].id};
    }
    if i < n {
      MemoryIds(segments[..n], i);
    } else {
      assert segments[n].id !in Ids(segments[..n]);
    }
  }

  lemma {:induction false} MemoryAmong(segments: seq<SegmentSnapshot>)
    ensures Ids(MemorySegments(segments)) <= Ids(segments)
  {
    if segments != [] {
      var n := |segments| - 1;
      MemoryAmong(segments[..n]);
      assert Ids(segments) == Ids(segments[..n]) + {segments[n].id};
      var before, after := MemorySegments(segments[..n]), MemorySegments(segments);
      forall k | 0 <= k < |after|
        ensures after[k].id in Ids(segments)
      {
        assert k < |before| ==> after[k] == before[k] && before[k].id in Ids(before);
      }
    }
  }

  lemma {:induction false} NotMergedAreFiles(segments: seq<SegmentSnapshot>, merged: set<nat>)
    requires DistinctIds(segments) && merged == Ids(MemorySegments(segments))
    ensures NotMerged(segments, merged) == FileSegments(segments)
  {
    NotMergedUpTo(segments, merged, |segments|);
    assert segments[..|segments|] == segments;
  }

  lemma {:induction false} NotMergedUpTo(segments: seq<SegmentSnapshot>, merged: set<nat>, n: nat)
    requires DistinctIds(segments) && merged == Ids(MemorySegments(segments)) && n <= |segments|
    ensures NotMerged(segments[..n], merged) == FileSegments(segments[..n])
  {
    if n > 0 {
      NotMergedUpTo(segments, merged, n - 1);
      MemoryIds(segments, n - 1);
      assert segments[..n][..n - 1] == segments[..n - 1];
    }
  }

  lemma {:induction false} NoneOut(root: seq<SegmentSnapshot>, out: nat)
    requires out !in Ids(root)
    ensures WithoutDeletes(root, {out}) == []
  {
    if root != [] {
      var n := |root| - 1;
      assert Ids(root) == Ids(root[..n]) + {root[n].id};
      NoneOut(root[..n], out);
    }
  }

  lemma {:induction false} OnlyOut(root: seq<SegmentSnapshot>, out: nat)
    requires DistinctIds(root) && FindSegment(root, out).Some?
    ensures WithoutDeletes(root, {out}) == [FindSegment(root, out).value.(deleted := {})]
  {
    var n := |root| - 1;
    if root[n].id == out {
      assert root[n].id !in Ids(root[..n]);
      NoneOut(root[..n], out);
    } else {
      OnlyOut(root[..n], out);
    }
  }

  // ---- preparing a bucket ----

  /** Writes a snapshot's bucket over the one that exists for the epoch, if any. */
  method PrepareBoltSnapshot(bucket: Record, segments: seq<SegmentSnapshot>, internal: map<string, string>,
                             exclude: set<nat>, bytesWritten: string)
    returns (r: Record, filenames: set<nat>, newSegmentPaths: set<nat>)
    requires DistinctIds(segments)
    ensures r == WriteOver(bucket, PrepareRecord(segments, internal, exclude, bytesWritten))
    ensures filenames == PrepareRecord(segments, internal, exclude, bytesWritten).Files()
    ensures newSegmentPaths == NewFiles(segments, exclude)
    ensures InternalWritten(bucket.internal, internal, bytesWritten, r.internal)
    ensures BucketsWritten(bucket.segments, segments, exclude, r.segments)
    ensures forall id :: id in filenames <==> exists i :: 0 <= i < |segments| && segments[i].id == id && (segments[i].file || id !in exclude)
    ensures forall id :: id in newSegmentPaths <==>
              exists i :: 0 <= i < |segments| && segments[i].id == id && !segments[i].file && id !in exclude
  {
    var values := WriteInternal(bucket.internal, internal);
    values := values[TOT_BYTES_WRITTEN := bytesWritten];
    InternalOver(bucket.internal, internal, bytesWritten);
    hide InternalWritten;
    var buckets;
    buckets, filenames, newSegmentPaths := WriteSegments(bucket, segments, exclude);
    r := Record(buckets, values);
    var now := PrepareRecord(segments, internal, exclude, bytesWritten);
    WriteOverSegments(bucket, now, Record(RecordSegments(segments, exclude), map[]));
    BucketsOver(bucket, segments, now, exclude);
    FilesPrepared(segments, internal, exclude, bytesWritten);
    hide WriteOver, RecordSegments, BucketsWritten;
  }

  /** The internal values of a bucket: the snapshot's over those that were there, and the bytes written. */
  ghost predicate InternalWritten(before: map<string, string>, internal: map<string, string>, bytesWritten: string, after: map<string, string>) {
    && TOT_BYTES_WRITTEN in after && after[TOT_BYTES_WRITTEN] == bytesWritten
    && forall k: string | k != TOT_BYTES_WRITTEN ::
         && (k in after <==> k in internal || k in before)
         && (k in after ==> after[k] == if k in internal then internal[k] else before[k])
  }

  lemma {:induction false} InternalOver(before: map<string, string>, internal: map<string, string>, bytesWritten: string)
    ensures InternalWritten(before, internal, bytesWritten, (before + internal)[TOT_BYTES_WRITTEN := bytesWritten])
    ensures (before + internal)[TOT_BYTES_WRITTEN := bytesWritten] == before + internal[TOT_BYTES_WRITTEN := bytesWritten]
  {
  }

  /** The bucket of a listed segment: a file's name, or the new one of a segment that is not left out, and its
      deletes, if it has any; what is not written again, and buckets of other segments, stay as they were. */
  ghost predicate BucketsWritten(before: map<nat, SegmentRecord>, segments: seq<SegmentSnapshot>, exclude: set<nat>,
                                 after: map<nat, SegmentRecord>)
  {
    && (forall i | 0 <= i < |segments| :: segments[i].id in after && BucketOf(before, segments[i], exclude, after[segments[i].id]))
    && forall id: nat | (forall i | 0 <= i < |segments| :: segments[i].id != id) ::
         (id in after <==> id in before) && (id in after ==> after[id] == before[id])
  }

  predicate BucketOf(before: map<nat, SegmentRecord>, s: SegmentSnapshot, exclude: set<nat>, b: SegmentRecord) {
    && b.path == (if s.file || s.id !in exclude then Some(s.id) else if s.id in before then before[s.id].path else None)
    && b.deleted == (if s.deleted != {} then s.deleted else if s.id in before then before[s.id].deleted else {})
  }

  lemma {:induction false} BucketsOver(bucket: Record, segments: seq<SegmentSnapshot>, now: Record, exclude: set<nat>)
    requires DistinctIds(segments) && now.segments == RecordSegments(segments, exclude)
    ensures BucketsWritten(bucket.segments, segments, exclude, WriteOver(bucket, now).segments)
  {
    RecordSegmentsAt(segments, exclude);
    hide RecordSegments, DistinctIds;
    var after := WriteOver(bucket, now).segments;
    forall i | 0 <= i < |segments|
      ensures segments[i].id in after && BucketOf(bucket.segments, segments[i], exclude, after[segments[i].id])
    {
      assert now.segments[segments[i].id] == RecordOf(segments[i], exclude);
    }
  }

  lemma {:induction false} FilesPrepared(segments: seq<SegmentSnapshot>, internal: map<string, string>, exclude: set<nat>, bytesWritten: string)
    requires DistinctIds(segments)
    ensures forall id :: id in PrepareRecord(segments, internal, exclude, bytesWritten).Files() <==>
              exists i :: 0 <= i < |segments| && segments[i].id == id && (segments[i].file || id !in exclude)
    ensures forall id :: id in NewFiles(segments, exclude) <==>
              exists i :: 0 <= i < |segments| && segments[i].id == id && !segments[i].file && id !in exclude
  {
    RecordSegmentsAt(segments, exclude);
    hide RecordSegments, DistinctIds;
    var record := PrepareRecord(segments, internal, exclude, bytesWritten);
    forall id | id in record.Files()
      ensures exists i :: 0 <= i < |segments| && segments[i].id == id && (segments[i].file || id !in exclude)
    {
      var k :| k in record.segments && record.segments[k].path == Some(id);
      var i :| 0 <= i < |segments| && segments[i].id == k;
      assert record.segments[k] == RecordOf(segments[i], exclude);
    }
    forall i | 0 <= i < |segments| && (segments[i].file || segments[i].id !in exclude)
      ensures segments[i].id in record.Files()
    {
      assert record.segments[segments[i].id] == RecordOf(segments[i], exclude);
    }
  }

  lemma {:induction false} WriteOverSegments(was: Record, now: Record, plain: Record)
    requires now.segments == plain.segments
    ensures WriteOver(was, now).segments == WriteOver(was, plain).segments
    ensures now.Files() == plain.Files()
  {
  }

  method WriteInternal(bucket: map<string, string>, internal: map<string, string>) returns (r: map<string, string>)
    ensures r == bucket + internal
  {
    r := bucket;
    var todo := internal.Keys;
    while todo != {}
      invariant todo <= internal.Keys
      invariant r == bucket + (map k | k in internal && k !in todo :: internal[k])
    {
      var k :| k in todo;
      r := r[k := internal[k]];
      todo := todo - {k};
    }
    assert (map k | k in internal && k !in todo :: internal[k]) == internal;
  }

  method WriteSegments(bucket: Record, segments: seq<SegmentSnapshot>, exclude: set<nat>)
    returns (r: map<nat, SegmentRecord>, filenames: set<nat>, newSegmentPaths: set<nat>)
    requires DistinctIds(segments)
    ensures r == WriteOver(bucket, Record(RecordSegments(segments, exclude), map[])).segments
    ensures filenames == Record(RecordSegments(segments, exclude), map[]).Files()
    ensures newSegmentPaths == NewFiles(segments, exclude)
  {
    r, filenames, newSegmentPaths := bucket.segments, {}, {};
    for i := 0 to |segments|
      invariant r == WriteOver(bucket, Record(RecordSegments(segments[..i], exclude), map[])).segments
      invariant filenames == Record(RecordSegments(segments[..i], exclude), map[]).Files()
      invariant newSegmentPaths == NewFiles(segments[..i], exclude)
    {
      var s := segments[i];
      ghost var before := Record(RecordSegments(segments[..i], exclude), map[]);
      WriteStep(bucket, segments, exclude, i);
      OverOne(bucket, before, s.id, RecordOf(s, exclude));
      hide WriteOver, RecordSegments, NewFiles;
      var b := if s.id in r then r[s.id] else SegmentRecord(None, {});
      if s.file {
        b := b.(path := Some(s.id));
        filenames := filenames + {s.id};
      } else if s.id !in exclude {
        newSegmentPaths := newSegmentPaths + {s.id};
        b := b.(path := Some(s.id));
        filenames := filenames + {s.id};
      }
      if s.deleted != {} {
        b := b.(deleted := s.deleted);
      }
      r := r[s.id := b];
    }
    assert segments[..|segments|] == segments;
  }

  /** Writing one more segment bucket: fields that are not put keep what was there. */
  lemma {:induction false} OverOne(bucket: Record, before: Record, id: nat, r: SegmentRecord)
    requires id !in before.segments
    ensures
      var there := if id in WriteOver(bucket, before).segments then WriteOver(bucket, before).segments[id] else SegmentRecord(None, {});
      WriteOver(bucket, Record(before.segments[id := r], map[])).segments
        == WriteOver(bucket, before).segments[id := SegmentRecord(if r.path.Some? then r.path else there.path,
                                                                  if r.deleted != {} then r.deleted else there.deleted)]
  {
  }

  lemma {:induction false} WriteStep(bucket: Record, segments: seq<SegmentSnapshot>, exclude: set<nat>, i: nat)
    requires DistinctIds(segments) && i < |segments|
    ensures
      var s, before := segments[i], Record(RecordSegments(segments[..i], exclude), map[]);
      var after := Record(RecordSegments(segments[..i + 1], exclude), map[]);
      && s.id !in before.segments
      && after.segments == before.segments[s.id := RecordOf(s, exclude)]
      && after.Files() == (if RecordOf(s, exclude).path.Some? then before.Files() + {s.id} else before.Files())
      && NewFiles(segments[..i + 1], exclude)
         == (if !s.file && s.id !in exclude then NewFiles(segments[..i], exclude) + {s.id} else NewFiles(segments[..i], exclude))
  {
    assert segments[..i + 1][..i] == segments[..i];
    RecordSegmentsAt(segments[..i], exclude);
    assert segments[i].id !in Ids(segments[..i]);
    var before := Record(RecordSegments(segments[..i], exclude), map[]);
    FilesAfter(before, segments[i].id, RecordOf(segments[i], exclude));
  }

  lemma {:induction false} FilesAfter(before: Record, id: nat, r: SegmentRecord)
    requires id !in before.segments
    ensures before.(segments := before.segments[id := r]).Files() == (if r.path.Some? then before.Files() + {r.path.value} else before.Files())
  {
    var after := before.(segments := before.segments[id := r]);
    forall f: nat
      ensures f in after.Files() <==> f in before.Files() || r.path == Some(f)
    {
      if f in before.Files() {
        var k :| k in before.segments && before.segments[k].path == Some(f);
        assert k in after.segments && after.segments[k].path == Some(f);
      }
      if r.path == Some(f) {
        assert id in after.segments && after.segments[id].path == Some(f);
      }
      if f in after.Files() {
        var k :| k in after.segments && after.segments[k].path == Some(f);
      }
    }
  }
}
