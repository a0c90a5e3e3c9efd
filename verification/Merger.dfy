/** The two places that build a merge for the introducer: a task of the file merger and the
    persister's merge of in-memory segments. Both run against a snapshot that may be stale when
    the introducer sees the result. */
module Merger {
  import opened Options
  import opened Segments
  import opened Snapshots
  import Introducer

  /** The plugin's `Merge`: the merged documents and the new numbers of each input's documents. */
  function MergeSegments(inputs: seq<SegmentSnapshot>): (seq<Entry>, seq<seq<nat>>) {
    (Merged(inputs), seq(|inputs|, j requires 0 <= j < |inputs| => NewNumbers(inputs, j)))
  }

  lemma {:induction false} FlatIds(inputs: seq<seq<SegmentSnapshot>>, n: nat)
    requires n <= |inputs|
    ensures Ids(Flat(inputs[..n])) == set w, j | 0 <= w < n && 0 <= j < |inputs[w]| :: inputs[w][j].id
  {
    if n > 0 {
      FlatIds(inputs, n - 1);
      assert inputs[..n][..n - 1] == inputs[..n - 1];
      IdsConcat(Flat(inputs[..n - 1]), inputs[n - 1]);
    }
  }

  lemma {:induction false} IdsConcat(a: seq<SegmentSnapshot>, b: seq<SegmentSnapshot>)
    ensures Ids(a + b) == Ids(a) + Ids(b)
  {
    forall i | 0 <= i < |a + b|
      ensures (a + b)[i].id in Ids(a) + Ids(b)
    {
      assert (a + b)[i] == if i < |a| then a[i] else b[i - |a|];
    }
    forall i | 0 <= i < |a|
      ensures a[i].id in Ids(a + b)
    {
      assert (a + b)[i] == a[i];
    }
    forall i | 0 <= i < |b|
      ensures b[i].id in Ids(a + b)
    {
      assert (a + b)[|a| + i] == b[i];
    }
  }

  lemma {:induction false} FlatOne(task: seq<SegmentSnapshot>)
    ensures Flat([task]) == task
  {
    assert [task][..0] == [];
    assert Flat([task]) == Flat([task][..0]) + task;
  }

  predicate AllLiveFiles(task: seq<SegmentSnapshot>) {
    forall i | 0 <= i < |task| :: task[i].file && task[i].LiveSize() != 0
  }

  /** One task of the merge plan. An input without a live document is left out of the merge and of
      the history, yet the renumberings are handed out by position in the task. */
  method RunMergeTask(task: seq<SegmentSnapshot>, newSegmentID: nat)
    returns (m: SegmentMerge, filenames: set<nat>)
    requires DistinctIds(task)
    requires exists i :: 0 <= i < |task| && task[i].file && task[i].LiveSize() != 0
    ensures AllLiveFiles(task) ==> BuiltFrom(m, [task])
    ensures m.ids == [newSegmentID] && |m.news| == 1 && m.news[0].Some?
    ensures filenames == set i | 0 <= i < |task| && task[i].file :: task[i].id
  {
    var history, toMerge;
    history, toMerge, filenames := CollectInputs(task);
    var (docs, newDocNums) := MergeSegments(toMerge);
    history := HandOutNumbers(task, history, newDocNums);
    m := SegmentMerge([newSegmentID], [Some(docs)], history);
    if AllLiveFiles(task) {
      TaskBuilt(m, task);
    }
  }

  lemma {:induction false} TaskBuilt(m: SegmentMerge, task: seq<SegmentSnapshot>)
    requires |m.ids| == 1 && m.news == [Some(Merged(task))] && DistinctIds(task)
    requires NumbersGiven(m.history, task, |task|)
    ensures BuiltFrom(m, [task])
  {
    hide NewNumbers, Merged;
    FlatOne(task);
    var inputs: seq<seq<SegmentSnapshot>> := [task];
    forall w, j | 0 <= w < |inputs| && 0 <= j < |inputs[w]|
      ensures inputs[w][j].id in m.history
      ensures m.history[inputs[w][j].id] == MergedSegmentHistory(w, NewNumbers(inputs[w], j), inputs[w][j])
    {
      assert w == 0 && task[j].id in m.history;
    }
    assert BuiltFrom(m, inputs);
  }

  method CollectInputs(task: seq<SegmentSnapshot>)
    returns (history: map<nat, MergedSegmentHistory>, toMerge: seq<SegmentSnapshot>, filenames: set<nat>)
    requires DistinctIds(task)
    ensures filenames == set i | 0 <= i < |task| && task[i].file :: task[i].id
    ensures |toMerge| <= |task|
    ensures AllLiveFiles(task) ==> toMerge == task && NumbersGiven(history, task, 0)
    ensures forall i | 0 <= i < |task| && task[i].file && task[i].LiveSize() != 0 :: task[i] in toMerge
  {
    history, toMerge, filenames := map[], [], {};
    for i := 0 to |task|
      invariant filenames == set k | 0 <= k < i && task[k].file :: task[k].id
      invariant forall k | 0 <= k < i && task[k].file && task[k].LiveSize() != 0 :: task[k] in toMerge
      invariant |toMerge| <= i
      invariant AllLiveFiles(task) ==> toMerge == task[..i] && NumbersGiven(history, task[..i], 0)
    {
      var s := task[i];
      assert Ids(task[..i + 1]) == Ids(task[..i]) + {s.id};
      history := history[s.id := MergedSegmentHistory(0, [], s)];
      if s.file {
        if s.LiveSize() == 0 {
          history := history - {s.id};
        } else {
          toMerge := toMerge + [s];
        }
        filenames := filenames + {s.id};
      }
    }
    assert task[..|task|] == task;
  }

  /** One entry for each input; the first `n` have their renumbering. */
  ghost predicate NumbersGiven(history: map<nat, MergedSegmentHistory>, task: seq<SegmentSnapshot>, n: nat) {
    && history.Keys == Ids(task)
    && forall k | 0 <= k < |task| ::
         && task[k].id in history
         && history[task[k].id] == MergedSegmentHistory(0, if k < n then NewNumbers(task, k) else [], task[k])
  }

  method HandOutNumbers(task: seq<SegmentSnapshot>, given: map<nat, MergedSegmentHistory>, newDocNums: seq<seq<nat>>)
    returns (history: map<nat, MergedSegmentHistory>)
    requires DistinctIds(task) && |newDocNums| <= |task|
    ensures NumbersGiven(given, task, 0) && newDocNums == MergeSegments(task).1 ==> NumbersGiven(history, task, |task|)
  {
    history := given;
    ghost var aligned := NumbersGiven(given, task, 0) && newDocNums == MergeSegments(task).1;
    for i := 0 to |newDocNums|
      invariant aligned ==> NumbersGiven(history, task, i)
    {
      hide NewNumbers, NumbersGiven;
      GiveOne(history, task, i, newDocNums[i]);
      if task[i].id in history {
        history := history[task[i].id := history[task[i].id].(oldNewDocIDs := newDocNums[i])];
      }
    }
  }

  lemma {:induction false} GiveOne(history: map<nat, MergedSegmentHistory>, task: seq<SegmentSnapshot>, i: nat, numbers: seq<nat>)
    requires DistinctIds(task) && i < |task|
    ensures NumbersGiven(history, task, i) && numbers == NewNumbers(task, i) ==>
              task[i].id in history
              && NumbersGiven(history[task[i].id := history[task[i].id].(oldNewDocIDs := numbers)], task, i + 1)
  {
    hide NewNumbers;
    if NumbersGiven(history, task, i) && numbers == NewNumbers(task, i) {
      assert task[i].id in history;
      var now := history[task[i].id := history[task[i].id].(oldNewDocIDs := numbers)];
      forall k | 0 <= k < |task|
        ensures task[k].id in now
        ensures now[task[k].id] == MergedSegmentHistory(0, if k < i + 1 then NewNumbers(task, k) else [], task[k])
      {
        assert k != i ==> task[k].id != task[i].id;
      }
    }
  }

  /** The persister's batches of in-memory segments, `flushables[w]` being positions in the
      snapshot that worker `w` merged into the file of `ids[w]`. */
  method MergeInMemorySegments(snapshot: seq<SegmentSnapshot>, flushables: seq<seq<nat>>, ids: seq<nat>)
    returns (m: SegmentMerge)
    requires |ids| == |flushables|
    requires forall w, j | 0 <= w < |flushables| && 0 <= j < |flushables[w]| :: flushables[w][j] < |snapshot|
    requires DistinctIds(Flat(Picks(snapshot, flushables)))
    ensures BuiltFrom(m, Picks(snapshot, flushables)) && m.ids == ids
    ensures forall w | 0 <= w < |m.news| :: m.news[w].Some?
  {
    var inputs := Picks(snapshot, flushables);
    var news, newDocIDsSet := RunWorkers(inputs);
    var history := BuildHistory(inputs, newDocIDsSet);
    m := SegmentMerge(ids, news, history);
    WorkersBuilt(m, inputs);
  }

  method RunWorkers(inputs: seq<seq<SegmentSnapshot>>) returns (news: seq<Option<seq<Entry>>>, newDocIDsSet: seq<seq<seq<nat>>>)
    ensures |news| == |newDocIDsSet| == |inputs|
    ensures forall w | 0 <= w < |inputs| :: news[w] == Some(Merged(inputs[w])) && newDocIDsSet[w] == MergeSegments(inputs[w]).1
  {
    news, newDocIDsSet := [], [];
    for w := 0 to |inputs|
      invariant |news| == |newDocIDsSet| == w
      invariant forall v | 0 <= v < w :: news[v] == Some(Merged(inputs[v])) && newDocIDsSet[v] == MergeSegments(inputs[v]).1
    {
      var (docs, newDocIDs) := MergeSegments(inputs[w]);
      news, newDocIDsSet := news + [Some(docs)], newDocIDsSet + [newDocIDs];
    }
  }

  lemma {:induction false} WorkersBuilt(m: SegmentMerge, inputs: seq<seq<SegmentSnapshot>>)
    requires |m.ids| == |m.news| == |inputs| && DistinctIds(Flat(inputs))
    requires m.history.Keys == Ids(Flat(inputs)) && HistoryOf(m.history, inputs, |inputs|)
    requires forall w | 0 <= w < |inputs| :: m.news[w] == Some(Merged(inputs[w]))
    ensures BuiltFrom(m, inputs)
  {
    hide NewNumbers, Merged, Flat, Ids, DistinctIds;
  }

  method BuildHistory(inputs: seq<seq<SegmentSnapshot>>, newDocIDsSet: seq<seq<seq<nat>>>)
    returns (history: map<nat, MergedSegmentHistory>)
    requires DistinctIds(Flat(inputs)) && |newDocIDsSet| == |inputs|
    requires forall w | 0 <= w < |inputs| :: newDocIDsSet[w] == MergeSegments(inputs[w]).1
    ensures history.Keys == Ids(Flat(inputs))
    ensures HistoryOf(history, inputs, |inputs|)
  {
    history := map[];
    for w := 0 to |inputs|
      invariant history.Keys == Ids(Flat(inputs[..w]))
      invariant HistoryOf(history, inputs, w)
    {
      var before := Flat(inputs[..w]);
      assert inputs[..w + 1][..w] == inputs[..w];
      history := AddWorker(history, inputs, w, newDocIDsSet[w]);
      IdsConcat(before, inputs[w]);
    }
    assert inputs[..|inputs|] == inputs;
  }

  method AddWorker(given: map<nat, MergedSegmentHistory>, inputs: seq<seq<SegmentSnapshot>>, w: nat, newDocIDs: seq<seq<nat>>)
    returns (history: map<nat, MergedSegmentHistory>)
    requires w < |inputs| && HistoryOf(given, inputs, w)
    requires newDocIDs == MergeSegments(inputs[w]).1
    requires DistinctIds(Flat(inputs))
    ensures history.Keys == given.Keys + Ids(inputs[w])
    ensures HistoryOf(history, inputs, w + 1)
  {
    history := given;
    DistinctAcross(inputs);
    for j := 0 to |inputs[w]|
      invariant history.Keys == given.Keys + Ids(inputs[w][..j])
      invariant HistoryOf(history, inputs, w)
      invariant forall k | 0 <= k < j ::
                  && inputs[w][k].id in history
                  && history[inputs[w][k].id] == MergedSegmentHistory(w, NewNumbers(inputs[w], k), inputs[w][k])
    {
      var ss := inputs[w][j];
      assert Ids(inputs[w][..j + 1]) == Ids(inputs[w][..j]) + {ss.id};
      history := history[ss.id := MergedSegmentHistory(w, newDocIDs[j], ss)];
    }
    assert inputs[w][..|inputs[w]|] == inputs[w];
  }

  ghost predicate HistoryOf(history: map<nat, MergedSegmentHistory>, inputs: seq<seq<SegmentSnapshot>>, n: nat)
    requires n <= |inputs|
  {
    forall v, j | 0 <= v < n && 0 <= j < |inputs[v]| ::
      && inputs[v][j].id in history
      && history[inputs[v][j].id] == MergedSegmentHistory(v, NewNumbers(inputs[v], j), inputs[v][j])
  }

  function Picks(snapshot: seq<SegmentSnapshot>, flushables: seq<seq<nat>>): (r: seq<seq<SegmentSnapshot>>)
    requires forall w, j | 0 <= w < |flushables| && 0 <= j < |flushables[w]| :: flushables[w][j] < |snapshot|
    ensures |r| == |flushables|
    ensures forall w | 0 <= w < |r| :: |r[w]| == |flushables[w]|
                                       && forall j | 0 <= j < |r[w]| :: r[w][j] == snapshot[flushables[w][j]]
  {
    seq(|flushables|, w requires 0 <= w < |flushables| =>
      seq(|flushables[w]|, j requires 0 <= j < |flushables[w]| => snapshot[flushables[w][j]]))
  }

  lemma {:induction false} FlatPosition(inputs: seq<seq<SegmentSnapshot>>, w: nat, j: nat) returns (p: nat)
    requires w < |inputs| && j < |inputs[w]|
    ensures p < |Flat(inputs)| && Flat(inputs)[p] == inputs[w][j]
    ensures p == |Flat(inputs[..w])| + j
  {
    var n := |inputs| - 1;
    if w < n {
      p := FlatPosition(inputs[..n], w, j);
      assert inputs[..n][..w] == inputs[..w];
    } else {
      p := |Flat(inputs[..n])| + j;
    }
  }

  lemma {:induction false} FlatGrows(inputs: seq<seq<SegmentSnapshot>>, v: nat, w: nat)
    requires v < w <= |inputs|
    ensures |Flat(inputs[..v])| + |inputs[v]| <= |Flat(inputs[..w])|
    decreases w
  {
    assert inputs[..w][..w - 1] == inputs[..w - 1];
    if v < w - 1 {
      FlatGrows(inputs, v, w - 1);
    }
  }

  lemma {:induction false} DistinctAcross(inputs: seq<seq<SegmentSnapshot>>)
    requires DistinctIds(Flat(inputs))
    ensures forall v, j, w, k | 0 <= v < |inputs| && 0 <= j < |inputs[v]| && 0 <= w < |inputs| && 0 <= k < |inputs[w]|
              && (v != w || j != k) :: inputs[v][j].id != inputs[w][k].id
  {
    forall v, j, w, k | 0 <= v < |inputs| && 0 <= j < |inputs[v]| && 0 <= w < |inputs| && 0 <= k < |inputs[w]|
      && (v != w || j != k)
      ensures inputs[v][j].id != inputs[w][k].id
    {
      var p := FlatPosition(inputs, v, j);
      var q := FlatPosition(inputs, w, k);
      if v < w {
        FlatGrows(inputs, v, w);
      } else if w < v {
        FlatGrows(inputs, w, v);
      }
    }
  }

  /** A task built from earlier states of segments is safe to introduce. */
  lemma {:induction false} BuiltFromInBounds(segments: seq<SegmentSnapshot>, m: SegmentMerge, inputs: seq<seq<SegmentSnapshot>>)
    requires SegmentsOk(segments) && BuiltFrom(m, inputs)
    requires forall w | 0 <= w < |inputs| :: EarlierStates(segments, inputs[w])
    ensures Introducer.MergeInBounds(segments, m)
  {
    FlatIds(inputs, |inputs|);
    assert inputs[..|inputs|] == inputs;
    forall id | id in m.history
      ensures m.history[id].workerID < |m.news| && m.history[id].oldSegment.id == id
      ensures forall d <- DeletedSince(segments, m.history[id].oldSegment) :: d < |m.history[id].oldNewDocIDs|
    {
      var w, j :| 0 <= w < |inputs| && 0 <= j < |inputs[w]| && inputs[w][j].id == id;
      assert EarlierState(segments, inputs[w][j]);
      if FindSegment(segments, id).Some? {
        assert FindSegment(segments, id).value.Ok();
      }
    }
  }
}
