/** The introducer: the one goroutine that replaces the root. Each step builds its new snapshot by
    a loop over the segments of the current root; here every step is tied to its specification. */
module Introducer {
  import opened Options
  import opened Segments
  import opened Snapshots

  lemma {:induction false} FindAt(segments: seq<SegmentSnapshot>, i: nat)
    requires DistinctIds(segments) && i < |segments|
    ensures FindSegment(segments, segments[i].id) == Some(segments[i])
  {
    var n := |segments| - 1;
    if i < n {
      FindAt(segments[..n], i);
    }
  }

  /** Files of segments that the batch leaves without a live document. */
  function DroppedByBatch(segments: seq<SegmentSnapshot>, b: SegmentIntroduction): set<nat> {
    set i | 0 <= i < |segments| && segments[i].file && Obsoleted(segments[i], b).LiveSize() <= 0 :: segments[i].id
  }

  /** Files of empty segments that a merge did not take as input. */
  function DroppedByMerge(segments: seq<SegmentSnapshot>, m: SegmentMerge): set<nat> {
    set i | 0 <= i < |segments| && segments[i].file && segments[i].id !in m.history && segments[i].LiveSize() == 0
      :: segments[i].id
  }

  /** What the merge introduction indexes without checking. */
  ghost predicate MergeInBounds(segments: seq<SegmentSnapshot>, m: SegmentMerge) {
    && |m.ids| == |m.news|
    && forall id <- m.history ::
         && m.history[id].workerID < |m.news|
         && m.history[id].oldSegment.id == id
         && forall d <- DeletedSince(segments, m.history[id].oldSegment) :: d < |m.history[id].oldNewDocIDs|
  }

  ghost predicate Remaining(history: map<nat, MergedSegmentHistory>, all: map<nat, MergedSegmentHistory>, done: set<nat>) {
    history.Keys == all.Keys - done && forall id <- history :: history[id] == all[id]
  }

  /** The bitmaps hold the translated deletes of the inputs in `done`. */
  ghost predicate CollectedFor(segments: seq<SegmentSnapshot>, m: SegmentMerge, done: set<nat>, bitmaps: seq<set<nat>>) {
    |bitmaps| == |m.news| && forall w | 0 <= w < |bitmaps| :: bitmaps[w] == NewDeletedFrom(segments, m.history, done, w)
  }

  lemma {:induction false} OffsetsSnoc(segments: seq<SegmentSnapshot>, s: SegmentSnapshot)
    ensures Offsets(segments + [s]) == Offsets(segments) + [TotalDocs(segments)]
    ensures TotalDocs(segments + [s]) == TotalDocs(segments) + |s.docs|
  {
    assert (segments + [s])[..|segments|] == segments;
  }

  lemma {:induction false} DroppedStep(segments: seq<SegmentSnapshot>, b: SegmentIntroduction, i: nat)
    requires i < |segments|
    ensures
      var s := Obsoleted(segments[i], b);
      DroppedByBatch(segments[..i + 1], b)
        == (if s.LiveSize() <= 0 && s.file then DroppedByBatch(segments[..i], b) + {s.id} else DroppedByBatch(segments[..i], b))
  {
    hide Obsoleted, DocNumbers;
    assert Obsoleted(segments[i], b).id == segments[i].id && Obsoleted(segments[i], b).file == segments[i].file by {
      ObsoletedDelta(segments[i], b);
    }
  }

  lemma {:induction false} ObsoletedDelta(s: SegmentSnapshot, b: SegmentIntroduction)
    ensures
      var delta := if s.id in b.obsoletes then b.obsoletes[s.id] else DocNumbers(s.docs, b.ids);
      Obsoleted(s, b) == s.(deleted := if s.deleted == {} then delta else if delta == {} then s.deleted else s.deleted + delta)
  {
  }

  lemma {:induction false} BatchStep(segments: seq<SegmentSnapshot>, b: SegmentIntroduction, i: nat)
    requires i < |segments|
    ensures
      var s := Obsoleted(segments[i], b);
      var before, dropped := Survivors(segments[..i], b), DroppedByBatch(segments[..i], b);
      && Survivors(segments[..i + 1], b) == (if s.LiveSize() > 0 then before + [s] else before)
      && DroppedByBatch(segments[..i + 1], b) == (if s.LiveSize() <= 0 && s.file then dropped + {s.id} else dropped)
    ensures
      var s := segments[i];
      var delta := if s.id in b.obsoletes then b.obsoletes[s.id] else DocNumbers(s.docs, b.ids);
      Obsoleted(s, b) == s.(deleted := if s.deleted == {} then delta else if delta == {} then s.deleted else s.deleted + delta)
  {
    hide Obsoleted, DocNumbers, DroppedByBatch;
    assert segments[..i + 1][..i] == segments[..i];
    DroppedStep(segments, b, i);
    ObsoletedDelta(segments[i], b);
  }

  lemma {:induction false} MergeStep(segments: seq<SegmentSnapshot>, m: SegmentMerge, i: nat)
    requires i < |segments| && DistinctIds(segments)
    ensures
      var s, kept, dropped := segments[i], Kept(segments[..i], m.history.Keys), DroppedByMerge(segments[..i], m);
      && Kept(segments[..i + 1], m.history.Keys) == (if s.id !in m.history && s.LiveSize() > 0 then kept + [s] else kept)
      && DroppedByMerge(segments[..i + 1], m)
         == (if s.id !in m.history && s.LiveSize() == 0 && s.file then dropped + {s.id} else dropped)
    ensures segments[i].id !in Ids(segments[..i])
    ensures Ids(segments[..i + 1]) == Ids(segments[..i]) + {segments[i].id}
    ensures segments[i].id !in m.history ==> forall w ::
              NewDeletedFrom(segments, m.history, Ids(segments[..i + 1]), w) == NewDeletedFrom(segments, m.history, Ids(segments[..i]), w)
  {
    assert segments[..i + 1][..i] == segments[..i];
    assert Ids(segments[..i + 1]) == Ids(segments[..i]) + {segments[i].id};
  }

  class Scorch {
    var root: IndexSnapshot
    var nextSnapshotEpoch: nat
    var ineligibleForRemoval: set<nat>
    var rootPersisted: seq<nat>
    var persistedCallbacks: seq<nat>

    constructor ()
      ensures root == IndexSnapshot([], [], map[], 0) && nextSnapshotEpoch == 1
      ensures ineligibleForRemoval == {} && rootPersisted == persistedCallbacks == []
    {
      root := IndexSnapshot([], [], map[], 0);
      nextSnapshotEpoch := 1;
      ineligibleForRemoval := {};
      rootPersisted, persistedCallbacks := [], [];
    }

    /** `persisted` and `callback` are the batch's persisted channel and callback, if it has one. */
    method IntroduceSegment(next: SegmentIntroduction, persisted: Option<nat>, callback: Option<nat>)
      modifies this
      ensures root == AfterBatch(old(root), next, old(nextSnapshotEpoch))
      ensures SetAndDeleted(old(root).internal, next.internal, root.internal) && root.epoch == old(nextSnapshotEpoch)
      ensures nextSnapshotEpoch == old(nextSnapshotEpoch) + 1
      ensures ineligibleForRemoval == old(ineligibleForRemoval) - DroppedByBatch(old(root).segments, next)
      ensures rootPersisted == old(rootPersisted) + if persisted.Some? then [persisted.value] else []
      ensures persistedCallbacks == old(persistedCallbacks) + if callback.Some? then [callback.value] else []
    {
      hide SetAndDeleted, ApplyInternal, Survivors, DroppedByBatch;
      var segments, offsets, running, dropped := ApplyObsoletes(root.segments, next);
      if next.data != [] {
        OffsetsSnoc(segments, SegmentSnapshot(next.id, next.data, false, {}));
        segments := segments + [SegmentSnapshot(next.id, next.data, false, {})];
        offsets := offsets + [running];
      }
      if persisted.Some? {
        rootPersisted := rootPersisted + [persisted.value];
      }
      if callback.Some? {
        persistedCallbacks := persistedCallbacks + [callback.value];
      }
      var internal := SetInternal(root.internal, next.internal);
      root := IndexSnapshot(segments, offsets, internal, nextSnapshotEpoch);
      nextSnapshotEpoch := nextSnapshotEpoch + 1;
      ineligibleForRemoval := ineligibleForRemoval - dropped;
    }

    /** Swaps reopened segments in; returns the ones whose segment is gone, which the caller closes. */
    method IntroducePersist(persisted: map<nat, seq<Entry>>) returns (left: map<nat, seq<Entry>>)
      requires DistinctIds(root.segments) && |root.offsets| == |root.segments|
      modifies this`root, this`nextSnapshotEpoch
      ensures root == AfterPersist(old(root), persisted, old(nextSnapshotEpoch))
      ensures nextSnapshotEpoch == old(nextSnapshotEpoch) + 1
      ensures left == persisted - Ids(old(root).segments)
    {
      var epoch := nextSnapshotEpoch;
      nextSnapshotEpoch := nextSnapshotEpoch + 1;
      left := persisted;
      var segments: seq<SegmentSnapshot>, offsets: seq<nat> := [], [];
      for i := 0 to |root.segments|
        invariant segments == SegmentsAfterPersist(root.segments, persisted)[..i]
        invariant offsets == root.offsets[..i]
        invariant left == persisted - Ids(root.segments[..i])
      {
        var s := root.segments[i];
        assert s.id !in Ids(root.segments[..i]);
        assert Ids(root.segments[..i + 1]) == Ids(root.segments[..i]) + {s.id};
        if s.id in left {
          segments := segments + [s.(docs := left[s.id], file := true)];
          left := left - {s.id};
        } else {
          segments := segments + [s];
        }
        offsets := offsets + [root.offsets[i]];
      }
      assert root.segments[..|root.segments|] == root.segments;
      root := IndexSnapshot(segments, offsets, root.internal, epoch);
    }

    /** `skipped` tells the requester that none of its new segments was worth keeping. */
    method IntroduceMerge(next: SegmentMerge) returns (skipped: bool)
      requires DistinctIds(root.segments) && MergeInBounds(root.segments, next)
      requires forall i | 0 <= i < |root.segments| :: root.segments[i].InRange()
      modifies this`root, this`nextSnapshotEpoch, this`ineligibleForRemoval
      ensures root == AfterMerge(old(root), next, old(nextSnapshotEpoch))
      ensures nextSnapshotEpoch == old(nextSnapshotEpoch) + 1
      ensures ineligibleForRemoval == old(ineligibleForRemoval) - DroppedByMerge(old(root).segments, next)
      ensures skipped <==> NewSegments(old(root).segments, next, |next.news|) == []
    {
      var newDeleted := new set<nat>[|next.news|](_ => {});
      var segments, offsets, running, dropped, history := ReplaceInputs(root.segments, next, newDeleted);
      DeleteObsolete(root.segments, next, history, newDeleted);
      segments, offsets, skipped := AppendNew(root.segments, next, newDeleted, segments, offsets, running);
      root := IndexSnapshot(segments, offsets, root.internal, nextSnapshotEpoch);
      nextSnapshotEpoch := nextSnapshotEpoch + 1;
      ineligibleForRemoval := ineligibleForRemoval - dropped;
    }
  }

  lemma {:induction false} NoSegments()
    ensures Offsets([]) == [] && TotalDocs([]) == 0
  {
  }

  lemma {:induction false} NothingDropped(segments: seq<SegmentSnapshot>, b: SegmentIntroduction)
    ensures Survivors(segments[..0], b) == [] && DroppedByBatch(segments[..0], b) == {}
  {
  }

  lemma {:induction false} NothingReplaced(segments: seq<SegmentSnapshot>, m: SegmentMerge, bitmaps: seq<set<nat>>)
    requires |bitmaps| == |m.news| && forall w | 0 <= w < |bitmaps| :: bitmaps[w] == {}
    ensures Kept(segments[..0], m.history.Keys) == [] && DroppedByMerge(segments[..0], m) == {} && Ids(segments[..0]) == {}
    ensures Remaining(m.history, m.history, Ids(segments[..0])) && CollectedFor(segments, m, Ids(segments[..0]), bitmaps)
  {
  }

  /** One more segment of the root: its entry is taken out of the history, if it has one. */
  lemma {:induction false} HistoryStep(segments: seq<SegmentSnapshot>, m: SegmentMerge, history: map<nat, MergedSegmentHistory>,
                                       bitmaps: seq<set<nat>>, i: nat)
    requires i < |segments| && DistinctIds(segments) && MergeInBounds(segments, m)
    requires Remaining(history, m.history, Ids(segments[..i])) && CollectedFor(segments, m, Ids(segments[..i]), bitmaps)
    ensures
      var s, done := segments[i], Ids(segments[..i + 1]);
      && done == Ids(segments[..i]) + {s.id} && s.id !in Ids(segments[..i]) && (s.id in history <==> s.id in m.history)
      && Remaining(history - {s.id}, m.history, done)
      && (s.id in history ==>
            history[s.id] == m.history[s.id] && s.deleted - history[s.id].oldSegment.deleted == DeletedSince(segments, m.history[s.id].oldSegment))
      && (s.id !in history ==> history - {s.id} == history && CollectedFor(segments, m, done, bitmaps))
  {
    MergeStep(segments, m, i);
    FindAt(segments, i);
    hide FindSegment, NewDeletedFrom, DistinctIds, Kept, DroppedByMerge;
    if segments[i].id !in history {
      assert history - {segments[i].id} == history;
    }
  }

  /** The loop of a batch introduction over the current segments. */
  method ApplyObsoletes(current: seq<SegmentSnapshot>, next: SegmentIntroduction)
    returns (segments: seq<SegmentSnapshot>, offsets: seq<nat>, running: nat, dropped: set<nat>)
    ensures segments == Survivors(current, next)
    ensures offsets == Offsets(segments) && running == TotalDocs(segments)
    ensures dropped == DroppedByBatch(current, next)
  {
    hide *;
    segments, offsets, running, dropped := [], [], 0, {};
    NoSegments();
    NothingDropped(current, next);
    for i := 0 to |current|
      invariant segments == Survivors(current[..i], next)
      invariant offsets == Offsets(segments) && running == TotalDocs(segments)
      invariant dropped == DroppedByBatch(current[..i], next)
    {
      var s := current[i];
      var delta := if s.id in next.obsoletes then next.obsoletes[s.id] else DocNumbers(s.docs, next.ids);
      var newss := s.(deleted := if s.deleted == {} then delta else if delta == {} then s.deleted else s.deleted + delta);
      BatchStep(current, next, i);
      if newss.LiveSize() > 0 {
        OffsetsSnoc(segments, newss);
        segments, offsets := segments + [newss], offsets + [running];
        running := running + |newss.docs|;
      } else if newss.file {
        dropped := dropped + {newss.id};
      }
    }
    assert current[..|current|] == current;
  }

  /** The loop of a merge introduction over the current segments: inputs go away, their later
      deletes are translated, the rest stays. `history` keeps the inputs that were not found. */
  method ReplaceInputs(current: seq<SegmentSnapshot>, next: SegmentMerge, newDeleted: array<set<nat>>)
    returns (segments: seq<SegmentSnapshot>, offsets: seq<nat>, running: nat, dropped: set<nat>,
             history: map<nat, MergedSegmentHistory>)
    requires DistinctIds(current) && MergeInBounds(current, next) && newDeleted.Length == |next.news|
    requires forall w | 0 <= w < |next.news| :: newDeleted[w] == {}
    modifies newDeleted
    ensures segments == Kept(current, next.history.Keys)
    ensures offsets == Offsets(segments) && running == TotalDocs(segments)
    ensures dropped == DroppedByMerge(current, next)
    ensures Remaining(history, next.history, Ids(current))
    ensures CollectedFor(current, next, Ids(current), newDeleted[..])
  {
    hide *;
    segments, offsets, running, dropped, history := [], [], 0, {}, next.history;
    NoSegments();
    NothingReplaced(current, next, newDeleted[..]);
    for i := 0 to |current|
      invariant segments == Kept(current[..i], next.history.Keys)
      invariant offsets == Offsets(segments) && running == TotalDocs(segments)
      invariant dropped == DroppedByMerge(current[..i], next)
      invariant Remaining(history, next.history, Ids(current[..i]))
      invariant CollectedFor(current, next, Ids(current[..i]), newDeleted[..])
    {
      var s := current[i];
      MergeStep(current, next, i);
      HistoryStep(current, next, history, newDeleted[..], i);
      if s.id in history {
        var h := history[s.id];
        AddTranslated(newDeleted, current, next, Ids(current[..i]), s.id, s.deleted - h.oldSegment.deleted);
        history := history - {s.id};
      } else if s.LiveSize() > 0 {
        OffsetsSnoc(segments, s);
        segments, offsets := segments + [s], offsets + [running];
        running := running + |s.docs|;
      } else if s.LiveSize() == 0 {
        if s.file {
          dropped := dropped + {s.id};
        }
      }
    }
    assert current[..|current|] == current;
  }

  /** Inputs that the root no longer lists have all their copies deleted. */
  method DeleteObsolete(current: seq<SegmentSnapshot>, next: SegmentMerge, gone: map<nat, MergedSegmentHistory>,
                        newDeleted: array<set<nat>>)
    requires MergeInBounds(current, next) && newDeleted.Length == |next.news|
    requires Remaining(gone, next.history, Ids(current))
    requires CollectedFor(current, next, Ids(current), newDeleted[..])
    modifies newDeleted
    ensures forall w | 0 <= w < |next.news| :: newDeleted[w] == NewDeleted(current, next, w)
  {
    var todo := gone.Keys;
    while todo != {}
      invariant todo <= gone.Keys
      invariant CollectedFor(current, next, next.history.Keys + Ids(current) - todo, newDeleted[..])
    {
      var id :| id in todo;
      ghost var done := next.history.Keys + Ids(current) - todo;
      AddTranslated(newDeleted, current, next, done, id, gone[id].oldSegment.LiveNumbers());
      todo := todo - {id};
      assert next.history.Keys + Ids(current) - todo == done + {id};
    }
  }

  /** New segments still worth keeping go at the end. */
  method AppendNew(current: seq<SegmentSnapshot>, next: SegmentMerge, newDeleted: array<set<nat>>,
                   kept: seq<SegmentSnapshot>, keptOffsets: seq<nat>, keptTotal: nat)
    returns (segments: seq<SegmentSnapshot>, offsets: seq<nat>, skipped: bool)
    requires |next.ids| == |next.news| == newDeleted.Length
    requires forall w | 0 <= w < |next.news| :: newDeleted[w] == NewDeleted(current, next, w)
    requires keptOffsets == Offsets(kept) && keptTotal == TotalDocs(kept)
    ensures segments == kept + NewSegments(current, next, |next.news|)
    ensures offsets == Offsets(segments)
    ensures skipped <==> NewSegments(current, next, |next.news|) == []
  {
    hide Offsets, TotalDocs, NewDeleted;
    segments, offsets, skipped := kept, keptOffsets, true;
    var running := keptTotal;
    for w := 0 to |next.news|
      invariant segments == kept + NewSegments(current, next, w)
      invariant offsets == Offsets(segments) && running == TotalDocs(segments)
      invariant skipped <==> NewSegments(current, next, w) == []
    {
      if next.news[w].Some? && |next.news[w].value| > |newDeleted[w]| {
        var added := SegmentSnapshot(next.ids[w], next.news[w].value, true, newDeleted[w]);
        OffsetsSnoc(segments, added);
        segments, offsets := segments + [added], offsets + [running];
        running := running + |added.docs|;
        skipped := false;
      }
    }
  }

  /** Copies the old values, then sets and deletes. */
  method SetInternal(values: map<string, string>, ops: map<string, Option<string>>) returns (r: map<string, string>)
    ensures SetAndDeleted(values, ops, r) && r == ApplyInternal(values, ops)
  {
    r := values;
    var todo := ops.Keys;
    while todo != {}
      invariant todo <= ops.Keys
      invariant forall k :: k in r <==> if k in ops && k !in todo then ops[k].Some? else k in values
      invariant forall k <- r :: r[k] == if k in ops && k !in todo then ops[k].value else values[k]
    {
      var k :| k in todo;
      if ops[k].Some? {
        r := r[k := ops[k].value];
      } else {
        r := r - {k};
      }
      todo := todo - {k};
    }
  }

  /** Adds the new number of every listed old document to the bitmap of its worker. */
  method AddTranslated(newDeleted: array<set<nat>>, ghost segments: seq<SegmentSnapshot>, next: SegmentMerge,
                       ghost done: set<nat>, id: nat, olds: set<nat>)
    requires MergeInBounds(segments, next) && newDeleted.Length == |next.news|
    requires id in next.history && id !in done
    requires olds == DeletedSince(segments, next.history[id].oldSegment)
    requires CollectedFor(segments, next, done, newDeleted[..])
    modifies newDeleted
    ensures CollectedFor(segments, next, done + {id}, newDeleted[..])
  {
    var h := next.history[id];
    var todo := olds;
    while todo != {}
      invariant todo <= olds
      invariant forall w | 0 <= w < |next.news| && w != h.workerID :: newDeleted[w] == old(newDeleted[w])
      invariant newDeleted[h.workerID] == old(newDeleted[h.workerID]) + set d | d in olds && d !in todo :: h.oldNewDocIDs[d]
    {
      var d :| d in todo;
      newDeleted[h.workerID] := newDeleted[h.workerID] + {h.oldNewDocIDs[d]};
      todo := todo - {d};
    }
    forall w | 0 <= w < |next.news|
      ensures newDeleted[w] == NewDeletedFrom(segments, next.history, done + {id}, w)
    {
    }
  }
}
