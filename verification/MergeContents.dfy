/** Introducing a merge keeps the live documents of the root, whatever was introduced since the
    merge read its inputs. */
module MergeContents {
  import opened Segments
  import opened Snapshots

  /** What the current root holds of an input. */
  function Current(segments: seq<SegmentSnapshot>, was: SegmentSnapshot): seq<Entry> {
    match FindSegment(segments, was.id)
    case Some(now) => now.Contents()
    case None => []
  }

  function CurrentAll(segments: seq<SegmentSnapshot>, inputs: seq<SegmentSnapshot>): seq<Entry> {
    if inputs == [] then [] else
      CurrentAll(segments, inputs[..|inputs| - 1]) + Current(segments, inputs[|inputs| - 1])
  }

  function Since(segments: seq<SegmentSnapshot>, inputs: seq<SegmentSnapshot>): (r: seq<set<nat>>)
    ensures |r| == |inputs|
    ensures forall j | 0 <= j < |r| :: r[j] == DeletedSince(segments, inputs[j])
  {
    seq(|inputs|, j requires 0 <= j < |inputs| => DeletedSince(segments, inputs[j]))
  }

  lemma {:induction false} LiveNone(docs: seq<Entry>, deleted: set<nat>)
    requires forall d: nat | d < |docs| :: d in deleted
    ensures Live(docs, deleted) == []
  {
    if docs != [] {
      LiveNone(docs[..|docs| - 1], deleted);
    }
  }

  lemma {:induction false} SinceOne(segments: seq<SegmentSnapshot>, was: SegmentSnapshot)
    requires SegmentsOk(segments) && EarlierState(segments, was)
    ensures DeletedSince(segments, was) <= was.LiveNumbers()
    ensures Live(was.docs, was.deleted + DeletedSince(segments, was)) == Current(segments, was)
  {
    match FindSegment(segments, was.id)
    case Some(now) =>
      assert was.deleted + DeletedSince(segments, was) == now.deleted;
    case None =>
      LiveNone(was.docs, was.deleted + DeletedSince(segments, was));
  }

  lemma {:induction false} SinceAll(segments: seq<SegmentSnapshot>, inputs: seq<SegmentSnapshot>)
    requires SegmentsOk(segments) && EarlierStates(segments, inputs)
    ensures Later(inputs, Since(segments, inputs))
    ensures StillLive(inputs, Since(segments, inputs)) == CurrentAll(segments, inputs)
  {
    if inputs != [] {
      var n := |inputs| - 1;
      SinceAll(segments, inputs[..n]);
      assert Since(segments, inputs)[..n] == Since(segments, inputs[..n]);
      SinceOne(segments, inputs[n]);
      forall j | 0 <= j < |inputs|
        ensures Since(segments, inputs)[j] <= inputs[j].LiveNumbers()
      {
        if j < n {
          assert Since(segments, inputs)[j] == Since(segments, inputs[..n])[j] && inputs[j] == inputs[..n][j];
        }
      }
    }
  }

  lemma {:induction false} FlatContains(inputs: seq<seq<SegmentSnapshot>>, s: SegmentSnapshot)
    ensures s in Flat(inputs) <==> exists w, j :: 0 <= w < |inputs| && 0 <= j < |inputs[w]| && inputs[w][j] == s
  {
    if inputs != [] {
      var n := |inputs| - 1;
      FlatContains(inputs[..n], s);
      if w, j :| 0 <= w < |inputs| && 0 <= j < |inputs[w]| && inputs[w][j] == s {
        assert w < n ==> inputs[..n][w][j] == s;
      }
      if s in Flat(inputs[..n]) {
        var w, j :| 0 <= w < n && 0 <= j < |inputs[..n][w]| && inputs[..n][w][j] == s;
        assert inputs[w][j] == s;
      }
    }
  }

  lemma {:induction false} HistoryAt(m: SegmentMerge, inputs: seq<seq<SegmentSnapshot>>, id: nat) returns (w: nat, j: nat)
    requires BuiltFrom(m, inputs) && id in m.history
    ensures w < |inputs| && j < |inputs[w]|
    ensures m.history[id] == MergedSegmentHistory(w, NewNumbers(inputs[w], j), inputs[w][j])
  {
    var i :| 0 <= i < |Flat(inputs)| && Flat(inputs)[i].id == id;
    FlatContains(inputs, Flat(inputs)[i]);
    w, j :| 0 <= w < |inputs| && 0 <= j < |inputs[w]| && inputs[w][j] == Flat(inputs)[i];
  }

  lemma {:induction false} CollectedIsTranslated(segments: seq<SegmentSnapshot>, m: SegmentMerge, inputs: seq<seq<SegmentSnapshot>>, w: nat, x: nat)
    requires BuiltFrom(m, inputs) && w < |inputs|
    requires Later(inputs[w], Since(segments, inputs[w])) && x in NewDeleted(segments, m, w)
    ensures x in Translated(inputs[w], Since(segments, inputs[w]))
  {
    var since := Since(segments, inputs[w]);
    var id, d :| id in m.history && m.history[id].workerID == w && d < |m.history[id].oldNewDocIDs|
      && d in DeletedSince(segments, m.history[id].oldSegment) && x == m.history[id].oldNewDocIDs[d];
    var v, j := HistoryAt(m, inputs, id);
    hide BuiltFrom, NewNumber, Translated, DeletedSince, Since;
    assert v == w && d in since[j] && d in inputs[w][j].LiveNumbers() && x == NewNumber(inputs[w], j, d);
    TranslatedMember(inputs[w], since, x);
  }

  lemma {:induction false} TranslatedIsCollected(segments: seq<SegmentSnapshot>, m: SegmentMerge, inputs: seq<seq<SegmentSnapshot>>, w: nat, x: nat)
    requires BuiltFrom(m, inputs) && w < |inputs|
    requires x in Translated(inputs[w], Since(segments, inputs[w]))
    ensures x in NewDeleted(segments, m, w)
  {
    var since := Since(segments, inputs[w]);
    TranslatedMember(inputs[w], since, x);
    var j, d :| 0 <= j < |inputs[w]| && d in since[j] && d in inputs[w][j].LiveNumbers() && x == NewNumber(inputs[w], j, d);
    hide NewNumber, Translated, DeletedSince, Since;
    assert m.history[inputs[w][j].id] == MergedSegmentHistory(w, NewNumbers(inputs[w], j), inputs[w][j]);
    assert NewNumbers(inputs[w], j)[d] == NewNumber(inputs[w], j, d);
  }

  /** The set of numbers that the introducer collects for one worker. */
  lemma {:induction false} NewDeletedIsTranslated(segments: seq<SegmentSnapshot>, m: SegmentMerge, inputs: seq<seq<SegmentSnapshot>>, w: nat)
    requires SegmentsOk(segments) && BuiltFrom(m, inputs) && w < |inputs|
    requires EarlierStates(segments, inputs[w])
    ensures Later(inputs[w], Since(segments, inputs[w]))
    ensures NewDeleted(segments, m, w) == Translated(inputs[w], Since(segments, inputs[w]))
  {
    SinceAll(segments, inputs[w]);
    hide *;
    forall x: nat
      ensures x in NewDeleted(segments, m, w) <==> x in Translated(inputs[w], Since(segments, inputs[w]))
    {
      if x in NewDeleted(segments, m, w) {
        CollectedIsTranslated(segments, m, inputs, w, x);
      }
      if x in Translated(inputs[w], Since(segments, inputs[w])) {
        TranslatedIsCollected(segments, m, inputs, w, x);
      }
    }
  }

  ghost predicate AllEarlier(segments: seq<SegmentSnapshot>, inputs: seq<seq<SegmentSnapshot>>) {
    forall w | 0 <= w < |inputs| :: EarlierStates(segments, inputs[w])
  }

  /** A new segment, with the bitmap collected for it, holds what the root still holds of its
      inputs, in order; one that is dropped would have held nothing. */
  lemma {:induction false} NewSegmentContents(segments: seq<SegmentSnapshot>, m: SegmentMerge, inputs: seq<seq<SegmentSnapshot>>, w: nat)
    requires SegmentsOk(segments) && BuiltFrom(m, inputs) && w < |inputs|
    requires EarlierStates(segments, inputs[w])
    ensures m.news[w].Some? ==>
              && Below(NewDeleted(segments, m, w), |m.news[w].value|)
              && Live(m.news[w].value, NewDeleted(segments, m, w)) == CurrentAll(segments, inputs[w])
    ensures !WorthKeeping(segments, m, w) ==> CurrentAll(segments, inputs[w]) == []
  {
    NewDeletedIsTranslated(segments, m, inputs, w);
    SinceAll(segments, inputs[w]);
    LiveMerged(inputs[w], Since(segments, inputs[w]));
    if m.news[w].Some? {
      LiveCount(m.news[w].value, NewDeleted(segments, m, w));
    }
  }

  lemma {:induction false} CurrentAllConcat(segments: seq<SegmentSnapshot>, a: seq<SegmentSnapshot>, b: seq<SegmentSnapshot>)
    ensures CurrentAll(segments, a + b) == CurrentAll(segments, a) + CurrentAll(segments, b)
  {
    hide Current;
    if b == [] {
      assert a + b == a;
    } else {
      assert (a + b)[..|a + b| - 1] == a + b[..|b| - 1];
      CurrentAllConcat(segments, a, b[..|b| - 1]);
    }
  }

  lemma {:induction false} NewSegmentHolds(segments: seq<SegmentSnapshot>, m: SegmentMerge, inputs: seq<seq<SegmentSnapshot>>, w: nat)
    requires SegmentsOk(segments) && BuiltFrom(m, inputs) && AllEarlier(segments, inputs) && w < |inputs|
    ensures |m.news| == |m.ids| == |inputs|
    ensures CurrentAll(segments, inputs[w]) == if WorthKeeping(segments, m, w) then NewSegment(segments, m, w).Contents() else []
  {
    NewSegmentContents(segments, m, inputs, w);
  }

  lemma {:induction false} NewSegmentsContents(segments: seq<SegmentSnapshot>, m: SegmentMerge, inputs: seq<seq<SegmentSnapshot>>, n: nat)
    requires SegmentsOk(segments) && BuiltFrom(m, inputs) && n <= |inputs|
    requires AllEarlier(segments, inputs)
    ensures Contents(NewSegments(segments, m, n)) == CurrentAll(segments, Flat(inputs[..n]))
  {
    if n > 0 {
      hide BuiltFrom, AllEarlier, CurrentAll, NewDeleted, Live, SegmentsOk;
      NewSegmentsContents(segments, m, inputs, n - 1);
      NewSegmentHolds(segments, m, inputs, n - 1);
      assert inputs[..n][..n - 1] == inputs[..n - 1];
      CurrentAllConcat(segments, Flat(inputs[..n - 1]), inputs[n - 1]);
      if WorthKeeping(segments, m, n - 1) {
        ContentsSnoc(NewSegments(segments, m, n - 1), NewSegment(segments, m, n - 1));
      }
    }
  }

  lemma {:induction false} KeptWithoutOne(segments: seq<SegmentSnapshot>, gone: set<nat>, more: set<nat>,
                                          was: SegmentSnapshot, e: Entry)
    requires SegmentsOk(segments) && was.id !in gone && more == gone + {was.id}
    ensures Occurrences(Contents(Kept(segments, gone)), e)
         == Occurrences(Contents(Kept(segments, more)), e) + Occurrences(Current(segments, was), e)
  {
    if segments != [] {
      var n := |segments| - 1;
      var init, last := segments[..n], segments[n];
      assert segments == init + [last];
      KeptSnoc(init, last, gone, e);
      KeptSnoc(init, last, more, e);
      if last.id == was.id {
        LastIdIsNew(segments);
        KeptNotListed(init, gone, was.id);
      } else {
        KeptWithoutOne(init, gone, more, was, e);
      }
    }
  }

  lemma {:induction false} LastIdIsNew(segments: seq<SegmentSnapshot>)
    requires DistinctIds(segments) && segments != []
    ensures segments[|segments| - 1].id !in Ids(segments[..|segments| - 1])
  {
  }

  lemma {:induction false} KeptSnoc(init: seq<SegmentSnapshot>, last: SegmentSnapshot, gone: set<nat>, e: Entry)
    requires last.Ok()
    ensures Occurrences(Contents(Kept(init + [last], gone)), e)
         == Occurrences(Contents(Kept(init, gone)), e) + (if last.id in gone then 0 else Occurrences(last.Contents(), e))
  {
    assert (init + [last])[..|init|] == init;
    ContentsSnoc(Kept(init, gone), last);
    OccurrencesConcat(Contents(Kept(init, gone)), last.Contents(), e);
  }

  lemma {:induction false} KeptNotListed(segments: seq<SegmentSnapshot>, gone: set<nat>, id: nat)
    requires id !in Ids(segments)
    ensures Kept(segments, gone) == Kept(segments, gone + {id})
  {
    if segments != [] {
      var n := |segments| - 1;
      assert Ids(segments) == Ids(segments[..n]) + {segments[n].id};
      KeptNotListed(segments[..n], gone, id);
    }
  }

  lemma {:induction false} KeptAll(segments: seq<SegmentSnapshot>)
    requires SegmentsOk(segments)
    ensures Kept(segments, {}) == segments
  {
    if segments != [] {
      KeptAll(segments[..|segments| - 1]);
    }
  }

  /** The documents of any distinct inputs and those of the segments left make up the root. */
  lemma {:induction false} SplitContents(segments: seq<SegmentSnapshot>, inputs: seq<SegmentSnapshot>, e: Entry)
    requires SegmentsOk(segments) && DistinctIds(inputs)
    ensures Occurrences(CurrentAll(segments, inputs), e) + Occurrences(Contents(Kept(segments, Ids(inputs))), e)
         == Occurrences(Contents(segments), e)
  {
    if inputs == [] {
      KeptAll(segments);
      assert Ids(inputs) == {};
    } else {
      hide SegmentsOk, Occurrences, Contents, Kept;
      var n := |inputs| - 1;
      SplitContents(segments, inputs[..n], e);
      assert Ids(inputs) == Ids(inputs[..n]) + {inputs[n].id};
      KeptWithoutOne(segments, Ids(inputs[..n]), Ids(inputs), inputs[n], e);
      OccurrencesConcat(CurrentAll(segments, inputs[..n]), Current(segments, inputs[n]), e);
    }
  }

  /** A merge of any number of workers, planned against any earlier root, leaves exactly the live
      documents of the current root. */
  lemma {:induction false} MergeKeepsContents(segments: seq<SegmentSnapshot>, m: SegmentMerge, inputs: seq<seq<SegmentSnapshot>>, e: Entry)
    requires SegmentsOk(segments) && BuiltFrom(m, inputs) && AllEarlier(segments, inputs)
    ensures Occurrences(Contents(SegmentsAfterMerge(segments, m)), e) == Occurrences(Contents(segments), e)
  {
    var kept, news := Kept(segments, m.history.Keys), NewSegments(segments, m, |m.news|);
    ContentsConcat(kept, news);
    OccurrencesConcat(Contents(kept), Contents(news), e);
    NewSegmentsContents(segments, m, inputs, |inputs|);
    assert inputs[..|inputs|] == inputs;
    SplitContents(segments, Flat(inputs), e);
  }

  /** The structural invariant survives, provided the new ids are new. */
  lemma {:induction false} MergeKeepsOk(segments: seq<SegmentSnapshot>, m: SegmentMerge, inputs: seq<seq<SegmentSnapshot>>)
    requires SegmentsOk(segments) && BuiltFrom(m, inputs) && AllEarlier(segments, inputs)
    requires forall w | 0 <= w < |m.ids| :: m.ids[w] !in Ids(segments)
    requires forall v, w | 0 <= v < w < |m.ids| :: m.ids[v] != m.ids[w]
    ensures SegmentsOk(SegmentsAfterMerge(segments, m))
  {
    KeptOk(segments, m.history.Keys);
    NewSegmentsOk(segments, m, inputs, |inputs|);
    var kept, news := Kept(segments, m.history.Keys), NewSegments(segments, m, |m.news|);
    forall i, j | 0 <= i < |kept| && 0 <= j < |news|
      ensures kept[i].id != news[j].id
    {
      assert kept[i].id in Ids(kept) && news[j].id in Ids(news);
    }
  }

  lemma {:induction false} KeptOk(segments: seq<SegmentSnapshot>, gone: set<nat>)
    requires SegmentsOk(segments)
    ensures SegmentsOk(Kept(segments, gone))
    ensures Ids(Kept(segments, gone)) == Ids(segments) - gone
    ensures forall s <- Kept(segments, gone) :: s in segments
  {
    if segments != [] {
      var n := |segments| - 1;
      KeptOk(segments[..n], gone);
      LastIdIsNew(segments);
      IdsSnoc(segments[..n], segments[n]);
      assert segments == segments[..n] + [segments[n]];
      AddSegment(Kept(segments[..n], gone), segments[n]);
      hide Ids, DistinctIds;
    }
  }

  lemma {:induction false} IdsSnoc(segments: seq<SegmentSnapshot>, s: SegmentSnapshot)
    ensures Ids(segments + [s]) == Ids(segments) + {s.id}
  {
    assert forall i | 0 <= i < |segments| :: (segments + [s])[i] == segments[i];
    assert (segments + [s])[|segments|] == s;
  }

  lemma {:induction false} AddSegment(segments: seq<SegmentSnapshot>, s: SegmentSnapshot)
    requires SegmentsOk(segments)
    ensures Ids(segments + [s]) == Ids(segments) + {s.id}
    ensures s.Ok() && s.id !in Ids(segments) ==> SegmentsOk(segments + [s])
  {
    IdsSnoc(segments, s);
    assert forall i | 0 <= i < |segments| :: segments[i].id in Ids(segments);
  }

  lemma {:induction false} NewSegmentHere(segments: seq<SegmentSnapshot>, m: SegmentMerge, inputs: seq<seq<SegmentSnapshot>>, w: nat)
    requires SegmentsOk(segments) && BuiltFrom(m, inputs) && AllEarlier(segments, inputs) && w < |inputs|
    ensures |m.ids| == |m.news| == |inputs|
    ensures WorthKeeping(segments, m, w) ==> NewSegment(segments, m, w).Ok() && NewSegment(segments, m, w).id == m.ids[w]
  {
    NewSegmentContents(segments, m, inputs, w);
  }

  lemma {:induction false} NewSegmentsOk(segments: seq<SegmentSnapshot>, m: SegmentMerge, inputs: seq<seq<SegmentSnapshot>>, n: nat)
    requires SegmentsOk(segments) && BuiltFrom(m, inputs) && AllEarlier(segments, inputs) && n <= |inputs|
    requires forall v, w | 0 <= v < w < |m.ids| :: m.ids[v] != m.ids[w]
    ensures SegmentsOk(NewSegments(segments, m, n))
    ensures forall id <- Ids(NewSegments(segments, m, n)) :: id in m.ids[..n]
  {
    if n > 0 {
      hide AllEarlier, BuiltFrom, CurrentAll, NewDeleted, SegmentsOk, Ids;
      NewSegmentsOk(segments, m, inputs, n - 1);
      NewSegmentHere(segments, m, inputs, n - 1);
      var before := NewSegments(segments, m, n - 1);
      forall i | 0 <= i < |before|
        ensures before[i].id in m.ids[..n - 1] && before[i].id != m.ids[n - 1]
      {
        assert before[i].id in Ids(before);
      }
      assert m.ids[..n] == m.ids[..n - 1] + [m.ids[n - 1]];
      if WorthKeeping(segments, m, n - 1) {
        OkSnoc(before, NewSegment(segments, m, n - 1));
      }
    }
  }

  lemma {:induction false} OkSnoc(segments: seq<SegmentSnapshot>, s: SegmentSnapshot)
    requires SegmentsOk(segments) && s.Ok() && forall i | 0 <= i < |segments| :: segments[i].id != s.id
    ensures SegmentsOk(segments + [s]) && Ids(segments + [s]) == Ids(segments) + {s.id}
  {
    var now := segments + [s];
    assert now[|segments|] == s;
    forall id | id in Ids(segments)
      ensures id in Ids(now)
    {
      var i :| 0 <= i < |segments| && segments[i].id == id;
      assert now[i].id == id;
    }
  }
}
