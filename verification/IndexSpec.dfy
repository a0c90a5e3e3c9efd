/** What the index is for: a map from document id to document and a map of internal values,
    changed atomically by each batch. */
module IndexSpec {
  import opened Options
  import opened Segments
  import opened Snapshots
  import opened MergeContents

  /** Updates (`Some`) and deletes (`None`) of documents and of internal values. */
  datatype Batch = Batch(ops: map<DocId, Option<Doc>>, internalOps: map<string, Option<string>>)

  datatype Index = Index(docs: map<DocId, Doc>, internal: map<string, string>)

  const EMPTY := Index(map[], map[])

  function ApplyBatch(a: Index, b: Batch): Index {
    Index(map id | id in a.docs.Keys + b.ops.Keys && (id in b.ops ==> b.ops[id].Some?)
            :: if id in b.ops then b.ops[id].value else a.docs[id],
          ApplyInternal(a.internal, b.internalOps))
  }

  /** A batch sets and deletes documents and internal values key by key. */
  lemma {:induction false} ApplyBatchSets(a: Index, b: Batch)
    ensures SetAndDeleted(a.docs, b.ops, ApplyBatch(a, b).docs)
    ensures SetAndDeleted(a.internal, b.internalOps, ApplyBatch(a, b).internal)
  {
  }

  function Replay(log: seq<Batch>): Index {
    if log == [] then EMPTY else ApplyBatch(Replay(log[..|log| - 1]), log[|log| - 1])
  }

  /** The last batch that mentions a key decides what it has. */
  lemma {:induction false} LastBatchDecides(log: seq<Batch>, i: nat, key: string)
    requires i < |log|
    ensures key in log[i].ops && (forall j | i < j < |log| :: key !in log[j].ops) ==>
              (match log[i].ops[key]
               case Some(doc) => key in Replay(log).docs && Replay(log).docs[key] == doc
               case None => key !in Replay(log).docs)
    ensures key in log[i].internalOps && (forall j | i < j < |log| :: key !in log[j].internalOps) ==>
              (match log[i].internalOps[key]
               case Some(value) => key in Replay(log).internal && Replay(log).internal[key] == value
               case None => key !in Replay(log).internal)
  {
    hide ApplyBatch;
    var n := |log| - 1;
    ApplyBatchSets(Replay(log[..n]), log[n]);
    if i < n {
      LastBatchDecides(log[..n], i, key);
    }
  }

  /** What no batch mentions is not there. */
  lemma {:induction false} NeverMentioned(log: seq<Batch>, key: string)
    ensures (forall j | 0 <= j < |log| :: key !in log[j].ops) ==> key !in Replay(log).docs
    ensures (forall j | 0 <= j < |log| :: key !in log[j].internalOps) ==> key !in Replay(log).internal
  {
    hide ApplyBatch;
    if log != [] {
      var n := |log| - 1;
      ApplyBatchSets(Replay(log[..n]), log[n]);
      NeverMentioned(log[..n], key);
    }
  }

  /** The key under which the persister adds its own statistic to the internal values. */
  const TOT_BYTES_WRITTEN := "TotBytesWritten"

  predicate SameInternal(a: map<string, string>, b: map<string, string>) {
    a - {TOT_BYTES_WRITTEN} == b - {TOT_BYTES_WRITTEN}
  }

  /** Each document of the map is live exactly once, and nothing else is live. */
  ghost predicate Holds(segments: seq<SegmentSnapshot>, docs: map<DocId, Doc>) {
    forall e :: Occurrences(Contents(segments), e) == Listed(docs, e)
  }

  function Listed(docs: map<DocId, Doc>, e: Entry): nat {
    if e.id in docs && docs[e.id] == e.doc then 1 else 0
  }

  ghost predicate Represents(segments: seq<SegmentSnapshot>, internal: map<string, string>, index: Index) {
    Holds(segments, index.docs) && SameInternal(internal, index.internal)
  }

  /** The plugin built the batch's segment from its updates, each once, in some order. */
  ghost predicate BatchData(data: seq<Entry>, b: Batch) {
    forall e :: Occurrences(data, e) == if e.id in b.ops && b.ops[e.id] == Some(e.doc) then 1 else 0
  }

  /** The introduction prepared for a batch. */
  ghost predicate Prepared(next: SegmentIntroduction, b: Batch) {
    next.ids == b.ops.Keys && next.internal == b.internalOps && BatchData(next.data, b)
  }

  lemma {:induction false} EmptyRepresents()
    ensures Represents([], map[], EMPTY)
  {
  }

  /** A batch prepared against any earlier root has the effect of applying it to the current map. */
  lemma {:induction false} BatchRefines(root: IndexSnapshot, next: SegmentIntroduction, index: Index, b: Batch)
    requires SegmentsOk(root.segments) && ObsoletesFor(root.segments, next) && Prepared(next, b)
    requires Represents(root.segments, root.internal, index)
    ensures Represents(SegmentsAfterBatch(root.segments, next), ApplyInternal(root.internal, next.internal), ApplyBatch(index, b))
  {
    hide ApplyInternal, SegmentsAfterBatch, SegmentsOk, ObsoletesFor;
    BatchContents(root.segments, next);
    forall e
      ensures Occurrences(Contents(SegmentsAfterBatch(root.segments, next)), e) == Listed(ApplyBatch(index, b).docs, e)
    {
      OccurrencesConcat(Without(Contents(root.segments), next.ids), next.data, e);
      OccurrencesWithout(Contents(root.segments), next.ids, e);
    }
    SameInternalAfter(root.internal, index.internal, b.internalOps);
  }

  lemma {:induction false} SameInternalAfter(a: map<string, string>, b: map<string, string>, ops: map<string, Option<string>>)
    requires SameInternal(a, b)
    ensures SameInternal(ApplyInternal(a, ops), ApplyInternal(b, ops))
  {
    var x, y := a - {TOT_BYTES_WRITTEN}, b - {TOT_BYTES_WRITTEN};
    var p, q := ApplyInternal(a, ops) - {TOT_BYTES_WRITTEN}, ApplyInternal(b, ops) - {TOT_BYTES_WRITTEN};
    assert forall k :: k in x <==> k in a && k != TOT_BYTES_WRITTEN;
    assert forall k :: k in y <==> k in b && k != TOT_BYTES_WRITTEN;
    assert forall k :: k in p <==> k in q;
    forall k | k in p
      ensures p[k] == q[k]
    {
      if k !in ops {
        assert x[k] == a[k] && y[k] == b[k];
      }
    }
  }

  lemma {:induction false} PersistRefines(root: IndexSnapshot, persisted: map<nat, seq<Entry>>, index: Index)
    requires FaithfulPersist(root.segments, persisted)
    requires Represents(root.segments, root.internal, index)
    ensures Represents(SegmentsAfterPersist(root.segments, persisted), root.internal, index)
  {
    PersistContents(root.segments, persisted);
  }

  /** A merge planned against any earlier root leaves the map as it is. */
  lemma {:induction false} MergeRefines(root: IndexSnapshot, m: SegmentMerge, inputs: seq<seq<SegmentSnapshot>>, index: Index)
    requires SegmentsOk(root.segments) && BuiltFrom(m, inputs) && AllEarlier(root.segments, inputs)
    requires Represents(root.segments, root.internal, index)
    ensures Represents(SegmentsAfterMerge(root.segments, m), root.internal, index)
  {
    forall e
      ensures Occurrences(Contents(SegmentsAfterMerge(root.segments, m)), e) == Listed(index.docs, e)
    {
      MergeKeepsContents(root.segments, m, inputs, e);
    }
  }

  // ---- what representing the map gives a reader ----

  lemma {:induction false} OccurrencesAt(entries: seq<Entry>, i: nat)
    requires i < |entries|
    ensures Occurrences(entries, entries[i]) >= 1
  {
    if i < |entries| - 1 {
      OccurrencesAt(entries[..|entries| - 1], i);
    }
  }

  lemma {:induction false} OccurrencesTwice(entries: seq<Entry>, i: nat, j: nat)
    requires i < j < |entries| && entries[i] == entries[j]
    ensures Occurrences(entries, entries[i]) >= 2
  {
    var n := |entries| - 1;
    if j < n {
      OccurrencesTwice(entries[..n], i, j);
    } else {
      OccurrencesAt(entries[..n], i);
    }
  }

  /** At most one live copy of each id. */
  lemma {:induction false} OneLiveCopy(segments: seq<SegmentSnapshot>, docs: map<DocId, Doc>, i: nat, j: nat)
    requires Holds(segments, docs) && i < j < |Contents(segments)|
    ensures Contents(segments)[i].id != Contents(segments)[j].id
  {
    OccurrencesAt(Contents(segments), i);
    OccurrencesAt(Contents(segments), j);
    if Contents(segments)[i] == Contents(segments)[j] {
      OccurrencesTwice(Contents(segments), i, j);
    }
  }

  lemma {:induction false} CountListed(entries: seq<Entry>, docs: map<DocId, Doc>)
    requires forall e :: Occurrences(entries, e) == Listed(docs, e)
    ensures |entries| == |docs|
  {
    if entries == [] {
      if id :| id in docs {
        assert Occurrences(entries, Entry(id, docs[id])) == 0;
      }
      assert docs.Keys == {};
    } else {
      var n := |entries| - 1;
      var last := entries[n];
      OccurrencesAt(entries, n);
      assert Listed(docs, last) >= 1;
      var rest := docs - {last.id};
      forall e
        ensures Occurrences(entries[..n], e) == Listed(rest, e)
      {
        assert Occurrences(entries, e) == Listed(docs, e);
      }
      CountListed(entries[..n], rest);
      assert docs.Keys == rest.Keys + {last.id};
    }
  }

  function LiveCount(segments: seq<SegmentSnapshot>): int {
    if segments == [] then 0 else LiveCount(segments[..|segments| - 1]) + segments[|segments| - 1].LiveSize()
  }

  lemma {:induction false} LiveCountIsLength(segments: seq<SegmentSnapshot>)
    requires SegmentsOk(segments)
    ensures LiveCount(segments) == |Contents(segments)|
  {
    if segments != [] {
      var n := |segments| - 1;
      LiveCountIsLength(segments[..n]);
      Segments.LiveCount(segments[n].docs, segments[n].deleted);
    }
  }

  /** The document count of a snapshot is the size of the map it represents. */
  method DocCount(snapshot: IndexSnapshot, ghost index: Index) returns (count: int)
    requires snapshot.Ok() && Holds(snapshot.segments, index.docs)
    ensures count == |index.docs|
  {
    count := 0;
    for i := 0 to |snapshot.segments|
      invariant count == LiveCount(snapshot.segments[..i])
    {
      assert snapshot.segments[..i + 1][..i] == snapshot.segments[..i];
      count := count + snapshot.segments[i].LiveSize();
    }
    assert snapshot.segments[..|snapshot.segments|] == snapshot.segments;
    LiveCountIsLength(snapshot.segments);
    CountListed(Contents(snapshot.segments), index.docs);
  }
}
