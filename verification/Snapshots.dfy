/** Index snapshots and what each of the introducer's three steps makes of the current root. */
module Snapshots {
  import opened Options
  import opened Segments

  datatype IndexSnapshot = IndexSnapshot(segments: seq<SegmentSnapshot>, offsets: seq<nat>,
                                         internal: map<string, string>, epoch: nat)
  {
    predicate Ok() { SegmentsOk(segments) && offsets == Offsets(segments) }
  }

  /** Segment ids are distinct, deleted bitmaps stay inside their segment and leave a document. */
  predicate SegmentsOk(segments: seq<SegmentSnapshot>) {
    DistinctIds(segments) && forall i | 0 <= i < |segments| :: segments[i].Ok()
  }

  predicate DistinctIds(segments: seq<SegmentSnapshot>) {
    forall i, j | 0 <= i < j < |segments| :: segments[i].id != segments[j].id
  }

  function Ids(segments: seq<SegmentSnapshot>): set<nat> {
    set i | 0 <= i < |segments| :: segments[i].id
  }

  function FindSegment(segments: seq<SegmentSnapshot>, id: nat): (r: Option<SegmentSnapshot>)
    ensures r.None? <==> id !in Ids(segments)
    ensures r.Some? ==> r.value in segments && r.value.id == id
  {
    if segments == [] then None else
      var n := |segments| - 1;
      assert Ids(segments) == Ids(segments[..n]) + {segments[n].id};
      if segments[n].id == id then Some(segments[n]) else FindSegment(segments[..n], id)
  }

  function TotalDocs(segments: seq<SegmentSnapshot>): nat {
    if segments == [] then 0 else
      TotalDocs(segments[..|segments| - 1]) + |segments[|segments| - 1].docs|
  }

  /** The first global document number of each segment. */
  function Offsets(segments: seq<SegmentSnapshot>): (r: seq<nat>)
    ensures |r| == |segments|
  {
    if segments == [] then [] else
      Offsets(segments[..|segments| - 1]) + [TotalDocs(segments[..|segments| - 1])]
  }

  /** All live documents, in global document-number order. */
  function Contents(segments: seq<SegmentSnapshot>): seq<Entry> {
    if segments == [] then [] else
      Contents(segments[..|segments| - 1]) + segments[|segments| - 1].Contents()
  }

  lemma {:induction false} ContentsSnoc(segments: seq<SegmentSnapshot>, s: SegmentSnapshot)
    ensures Contents(segments + [s]) == Contents(segments) + s.Contents()
  {
    assert (segments + [s])[..|segments|] == segments;
  }

  lemma {:induction false} ContentsConcat(a: seq<SegmentSnapshot>, b: seq<SegmentSnapshot>)
    ensures Contents(a + b) == Contents(a) + Contents(b)
  {
    if b == [] {
      assert a + b == a;
    } else {
      assert (a + b)[..|a + b| - 1] == a + b[..|b| - 1];
      ContentsConcat(a, b[..|b| - 1]);
    }
  }

  // ---- batches ----

  /** A prepared batch. `data` is the new segment's documents (none when the batch only deletes);
      `obsoletes` was computed outside the lock against an earlier root. */
  datatype SegmentIntroduction = SegmentIntroduction(id: nat, data: seq<Entry>, obsoletes: map<nat, set<nat>>,
                                                     ids: set<DocId>, internal: map<string, Option<string>>)

  function Obsoleted(s: SegmentSnapshot, b: SegmentIntroduction): SegmentSnapshot {
    s.(deleted := s.deleted + (if s.id in b.obsoletes then b.obsoletes[s.id] else DocNumbers(s.docs, b.ids)))
  }

  /** The old segments that still have a live document after the batch. */
  function Survivors(segments: seq<SegmentSnapshot>, b: SegmentIntroduction): seq<SegmentSnapshot> {
    if segments == [] then [] else
      var n := |segments| - 1;
      var s := Obsoleted(segments[n], b);
      if s.LiveSize() > 0 then Survivors(segments[..n], b) + [s] else Survivors(segments[..n], b)
  }

  function SegmentsAfterBatch(segments: seq<SegmentSnapshot>, b: SegmentIntroduction): seq<SegmentSnapshot> {
    if b.data == [] then Survivors(segments, b)
    else Survivors(segments, b) + [SegmentSnapshot(b.id, b.data, false, {})]
  }

  function ApplyInternal(values: map<string, string>, ops: map<string, Option<string>>): map<string, string> {
    map k | k in values.Keys + ops.Keys && (k in ops ==> ops[k].Some?) :: if k in ops then ops[k].value else values[k]
  }

  /** Key by key what setting and deleting leaves: a key that is set has its new value,
      a deleted one is gone, and every other key is there exactly if it was, with its old value. */
  ghost predicate SetAndDeleted(before: map<string, string>, ops: map<string, Option<string>>, after: map<string, string>) {
    forall k: string ::
      && (k in ops && ops[k].Some? ==> k in after && after[k] == ops[k].value)
      && (k in ops && ops[k].None? ==> k !in after)
      && (k !in ops ==> (k in after <==> k in before) && (k in after ==> after[k] == before[k]))
  }

  lemma {:induction false} InternalAfterBatch(root: IndexSnapshot, b: SegmentIntroduction, epoch: nat)
    ensures SetAndDeleted(root.internal, b.internal, AfterBatch(root, b, epoch).internal)
  {
    hide SegmentsAfterBatch, Offsets;
  }

  function AfterBatch(root: IndexSnapshot, b: SegmentIntroduction, epoch: nat): IndexSnapshot {
    var segments := SegmentsAfterBatch(root.segments, b);
    IndexSnapshot(segments, Offsets(segments), ApplyInternal(root.internal, b.internal), epoch)
  }

  /** The precomputed bitmaps are right for every segment of the root that they mention. */
  predicate ObsoletesFor(segments: seq<SegmentSnapshot>, b: SegmentIntroduction) {
    forall i | 0 <= i < |segments| :: segments[i].id in b.obsoletes ==>
      b.obsoletes[segments[i].id] == DocNumbers(segments[i].docs, b.ids)
  }

  /** A batch removes every live copy of the ids it mentions and appends its own documents:
      the earlier root that `obsoletes` was computed from leaves no trace. */
  lemma {:induction false} BatchContents(segments: seq<SegmentSnapshot>, b: SegmentIntroduction)
    requires SegmentsOk(segments) && ObsoletesFor(segments, b)
    ensures Contents(SegmentsAfterBatch(segments, b)) == Without(Contents(segments), b.ids) + b.data
  {
    SurvivorContents(segments, b);
    LiveAll(b.data);
    ContentsSnoc(Survivors(segments, b), SegmentSnapshot(b.id, b.data, false, {}));
  }

  lemma {:induction false} LiveAll(docs: seq<Entry>)
    ensures Live(docs, {}) == docs
  {
    if docs != [] {
      LiveAll(docs[..|docs| - 1]);
    }
  }

  lemma {:induction false} SurvivorContents(segments: seq<SegmentSnapshot>, b: SegmentIntroduction)
    requires SegmentsOk(segments) && ObsoletesFor(segments, b)
    ensures Contents(Survivors(segments, b)) == Without(Contents(segments), b.ids)
  {
    if segments != [] {
      var n := |segments| - 1;
      var s := Obsoleted(segments[n], b);
      OneSurvivor(segments[n], b);
      hide Without, Obsoleted, Live, DocNumbers;
      SurvivorContents(segments[..n], b);
      WithoutConcat(Contents(segments[..n]), segments[n].Contents(), b.ids);
    }
  }

  lemma {:induction false} OneSurvivor(s: SegmentSnapshot, b: SegmentIntroduction)
    requires s.Ok() && (s.id in b.obsoletes ==> b.obsoletes[s.id] == DocNumbers(s.docs, b.ids))
    ensures Obsoleted(s, b).Contents() == Without(s.Contents(), b.ids)
    ensures Obsoleted(s, b).LiveSize() <= 0 ==> Obsoleted(s, b).Contents() == []
  {
    var now := Obsoleted(s, b);
    LiveObsolete(s.docs, s.deleted, b.ids);
    assert now.InRange();
    LiveCount(now.docs, now.deleted);
  }

  lemma {:induction false} SurvivorsFrom(segments: seq<SegmentSnapshot>, b: SegmentIntroduction)
    ensures forall s <- Survivors(segments, b) ::
              s.LiveSize() > 0 && exists i :: 0 <= i < |segments| && s == Obsoleted(segments[i], b)
  {
    hide Obsoleted;
    if segments != [] {
      var n := |segments| - 1;
      SurvivorsFrom(segments[..n], b);
      forall s | s in Survivors(segments[..n], b)
        ensures exists i :: 0 <= i < |segments| && s == Obsoleted(segments[i], b)
      {
        var i :| 0 <= i < n && s == Obsoleted(segments[..n][i], b);
        assert s == Obsoleted(segments[i], b);
      }
    }
  }

  lemma {:induction false} SurvivorIds(segments: seq<SegmentSnapshot>, b: SegmentIntroduction)
    requires DistinctIds(segments)
    ensures DistinctIds(Survivors(segments, b)) && Ids(Survivors(segments, b)) <= Ids(segments)
  {
    if segments != [] {
      var n := |segments| - 1;
      SurvivorIds(segments[..n], b);
      assert segments[n].id !in Ids(segments[..n]);
      assert Ids(segments) == Ids(segments[..n]) + {segments[n].id};
      var kept := Survivors(segments[..n], b);
      forall i | 0 <= i < |kept|
        ensures kept[i].id in Ids(segments[..n])
      {
        assert kept[i].id in Ids(kept);
      }
    }
  }

  lemma {:induction false} SurvivorsOk(segments: seq<SegmentSnapshot>, b: SegmentIntroduction)
    requires SegmentsOk(segments) && ObsoletesFor(segments, b)
    ensures SegmentsOk(Survivors(segments, b))
    ensures Ids(Survivors(segments, b)) <= Ids(segments)
    ensures forall s <- Survivors(segments, b) ::
              exists i :: 0 <= i < |segments| && s == Obsoleted(segments[i], b)
  {
    SurvivorIds(segments, b);
    SurvivorsFrom(segments, b);
    var survivors := Survivors(segments, b);
    forall k | 0 <= k < |survivors|
      ensures survivors[k].InRange()
    {
      assert survivors[k] in survivors;
      var i :| 0 <= i < |segments| && survivors[k] == Obsoleted(segments[i], b);
    }
  }

  // ---- persists ----

  /** Segments reopened from their files take the place of the in-memory ones with the same id. */
  function SegmentsAfterPersist(segments: seq<SegmentSnapshot>, persisted: map<nat, seq<Entry>>): (r: seq<SegmentSnapshot>)
    ensures |r| == |segments|
    ensures forall i | 0 <= i < |r| :: r[i] == Replaced(segments[i], persisted)
  {
    seq(|segments|, i requires 0 <= i < |segments| => Replaced(segments[i], persisted))
  }

  function Replaced(s: SegmentSnapshot, persisted: map<nat, seq<Entry>>): SegmentSnapshot {
    if s.id in persisted then s.(docs := persisted[s.id], file := true) else s
  }

  function AfterPersist(root: IndexSnapshot, persisted: map<nat, seq<Entry>>, epoch: nat): IndexSnapshot {
    IndexSnapshot(SegmentsAfterPersist(root.segments, persisted), root.offsets, root.internal, epoch)
  }

  /** Every reopened segment has the documents of the root segment it replaces. */
  predicate FaithfulPersist(segments: seq<SegmentSnapshot>, persisted: map<nat, seq<Entry>>) {
    forall i | 0 <= i < |segments| :: segments[i].id in persisted ==> persisted[segments[i].id] == segments[i].docs
  }

  lemma {:induction false} PersistContents(segments: seq<SegmentSnapshot>, persisted: map<nat, seq<Entry>>)
    requires FaithfulPersist(segments, persisted)
    ensures Contents(SegmentsAfterPersist(segments, persisted)) == Contents(segments)
    ensures Offsets(SegmentsAfterPersist(segments, persisted)) == Offsets(segments)
    ensures TotalDocs(SegmentsAfterPersist(segments, persisted)) == TotalDocs(segments)
  {
    if segments != [] {
      var n := |segments| - 1;
      PersistContents(segments[..n], persisted);
      assert SegmentsAfterPersist(segments, persisted)[..n] == SegmentsAfterPersist(segments[..n], persisted);
    }
  }

  // ---- merges ----

  datatype MergedSegmentHistory = MergedSegmentHistory(workerID: nat, oldNewDocIDs: seq<nat>, oldSegment: SegmentSnapshot)

  /** A finished merge handed to the introducer: new segments with their ids, one for each worker,
      and for each input its worker, its renumbering and the snapshot that was merged. */
  datatype SegmentMerge = SegmentMerge(ids: seq<nat>, news: seq<Option<seq<Entry>>>, history: map<nat, MergedSegmentHistory>)

  /** The documents of one input that were deleted after the merge read it; all of them when the
      root no longer lists the input. */
  function DeletedSince(segments: seq<SegmentSnapshot>, was: SegmentSnapshot): set<nat> {
    match FindSegment(segments, was.id)
    case Some(now) => now.deleted - was.deleted
    case None => was.LiveNumbers()
  }

  /** The deletes that apply to worker `w`'s new segment, in its numbering. */
  function NewDeleted(segments: seq<SegmentSnapshot>, m: SegmentMerge, w: nat): set<nat> {
    NewDeletedFrom(segments, m.history, m.history.Keys, w)
  }

  function NewDeletedFrom(segments: seq<SegmentSnapshot>, history: map<nat, MergedSegmentHistory>, ids: set<nat>, w: nat): set<nat> {
    set id, d | id in ids && id in history && history[id].workerID == w
                && d in DeletedSince(segments, history[id].oldSegment) && d < |history[id].oldNewDocIDs|
      :: history[id].oldNewDocIDs[d]
  }

  function Kept(segments: seq<SegmentSnapshot>, gone: set<nat>): seq<SegmentSnapshot> {
    if segments == [] then [] else
      var n := |segments| - 1;
      if segments[n].id !in gone && segments[n].LiveSize() > 0 then Kept(segments[..n], gone) + [segments[n]]
      else Kept(segments[..n], gone)
  }

  predicate WorthKeeping(segments: seq<SegmentSnapshot>, m: SegmentMerge, w: nat)
    requires w < |m.news|
  {
    m.news[w].Some? && |m.news[w].value| > |NewDeleted(segments, m, w)|
  }

  function NewSegment(segments: seq<SegmentSnapshot>, m: SegmentMerge, w: nat): SegmentSnapshot
    requires w < |m.news| == |m.ids| && m.news[w].Some?
  {
    SegmentSnapshot(m.ids[w], m.news[w].value, true, NewDeleted(segments, m, w))
  }

  /** The new segments of the first `n` workers that still have a live document. */
  function NewSegments(segments: seq<SegmentSnapshot>, m: SegmentMerge, n: nat): seq<SegmentSnapshot>
    requires n <= |m.news| == |m.ids|
  {
    if n == 0 then [] else
      if WorthKeeping(segments, m, n - 1)
      then NewSegments(segments, m, n - 1) + [NewSegment(segments, m, n - 1)]
      else NewSegments(segments, m, n - 1)
  }

  lemma {:induction false} NoneIsNew(segments: seq<SegmentSnapshot>, m: SegmentMerge, n: nat)
    requires n <= |m.news| == |m.ids|
    ensures NewSegments(segments, m, n) == [] <==> forall w | 0 <= w < n :: !WorthKeeping(segments, m, w)
  {
    hide NewDeleted;
    if n > 0 {
      NoneIsNew(segments, m, n - 1);
    }
  }

  function SegmentsAfterMerge(segments: seq<SegmentSnapshot>, m: SegmentMerge): seq<SegmentSnapshot>
    requires |m.news| == |m.ids|
  {
    Kept(segments, m.history.Keys) + NewSegments(segments, m, |m.news|)
  }

  function AfterMerge(root: IndexSnapshot, m: SegmentMerge, epoch: nat): IndexSnapshot
    requires |m.news| == |m.ids|
  {
    var segments := SegmentsAfterMerge(root.segments, m);
    IndexSnapshot(segments, Offsets(segments), root.internal, epoch)
  }

  function Flat(inputs: seq<seq<SegmentSnapshot>>): seq<SegmentSnapshot> {
    if inputs == [] then [] else Flat(inputs[..|inputs| - 1]) + inputs[|inputs| - 1]
  }

  /** The task is what the workers report for merging `inputs[w]`, by the plugin's contract. */
  ghost predicate BuiltFrom(m: SegmentMerge, inputs: seq<seq<SegmentSnapshot>>) {
    && |m.ids| == |m.news| == |inputs|
    && DistinctIds(Flat(inputs))
    && m.history.Keys == Ids(Flat(inputs))
    && (forall w, j | 0 <= w < |inputs| && 0 <= j < |inputs[w]| ::
          && inputs[w][j].id in m.history
          && m.history[inputs[w][j].id] == MergedSegmentHistory(w, NewNumbers(inputs[w], j), inputs[w][j]))
    && (forall w | 0 <= w < |inputs| ::
          m.news[w] == Some(Merged(inputs[w])) || (m.news[w].None? && inputs[w] == []))
  }

  /** `was` is an earlier state of a segment: the documents are the same and deletes only grew. */
  predicate EarlierState(segments: seq<SegmentSnapshot>, was: SegmentSnapshot) {
    && was.InRange()
    && match FindSegment(segments, was.id)
       case Some(now) => now.docs == was.docs && was.deleted <= now.deleted
       case None => true
  }

  predicate EarlierStates(segments: seq<SegmentSnapshot>, earlier: seq<SegmentSnapshot>) {
    forall i | 0 <= i < |earlier| :: EarlierState(segments, earlier[i])
  }
}
