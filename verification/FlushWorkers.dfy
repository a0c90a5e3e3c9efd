/** How the persister hands in-memory segments to several workers. A worker gets a group once the
    group is large enough; when all workers have one, the segments that follow are left out. */
module FlushWorkers {
  import opened Segments
  import opened Snapshots
  import opened Protocol
  import Merger

  /** Groups that went to a worker, and the positions and the size of the one that is being filled. */
  datatype Groups = Groups(full: seq<seq<nat>>, current: seq<nat>, size: nat)

  /** Before the next segment is looked at, a group that is large enough goes to a worker. */
  function Close(g: Groups, maxSize: int): Groups {
    if g.size >= maxSize && |g.current| >= MIN_SEGMENTS_FOR_IN_MEMORY_MERGE then Groups(g.full + [g.current], [], 0) else g
  }

  /** The groups made of the first `n` segments if there were workers enough. */
  function Grouped(segments: seq<SegmentSnapshot>, sizes: seq<nat>, maxSize: int, n: nat): Groups
    requires n <= |segments| == |sizes|
  {
    if n == 0 then Groups([], [], 0) else
      var g := Close(Grouped(segments, sizes, maxSize, n - 1), maxSize);
      if segments[n - 1].file then g else Groups(g.full, g.current + [n - 1], g.size + sizes[n - 1])
  }

  /** Every worker has a group before segment `i` is looked at. */
  predicate AllBusy(segments: seq<SegmentSnapshot>, sizes: seq<nat>, maxSize: int, workers: int, i: nat)
    requires i < |segments| == |sizes|
  {
    |Close(Grouped(segments, sizes, maxSize, i), maxSize).full| >= workers
  }

  /** The first segment, from `i` on, that finds every worker busy. */
  function StopsAt(segments: seq<SegmentSnapshot>, sizes: seq<nat>, maxSize: int, workers: int, i: nat): (n: nat)
    requires i <= |segments| == |sizes|
    ensures i <= n <= |segments| && (n < |segments| ==> AllBusy(segments, sizes, maxSize, workers, n))
    ensures forall k | i <= k < n :: !AllBusy(segments, sizes, maxSize, workers, k)
    decreases |segments| - i
  {
    if i == |segments| || AllBusy(segments, sizes, maxSize, workers, i) then i
    else StopsAt(segments, sizes, maxSize, workers, i + 1)
  }

  /** What the workers get. */
  function Flushables(segments: seq<SegmentSnapshot>, sizes: seq<nat>, maxSize: int, workers: int): seq<seq<nat>>
    requires |segments| == |sizes|
  {
    var n := StopsAt(segments, sizes, maxSize, workers, 0);
    var g := Grouped(segments, sizes, maxSize, n);
    if n < |segments| then Close(g, maxSize).full else if |g.full| < workers then g.full + [g.current] else g.full
  }

  function Joined(groups: seq<seq<nat>>): seq<nat> {
    if groups == [] then [] else Joined(groups[..|groups| - 1]) + groups[|groups| - 1]
  }

  lemma {:induction false} JoinedSnoc(groups: seq<seq<nat>>, g: seq<nat>)
    ensures Joined(groups + [g]) == Joined(groups) + g
  {
    assert (groups + [g])[..|groups|] == groups;
  }

  /** The loop over the segments, which of them it took, and how many. */
  method CollectFlushables(segments: seq<SegmentSnapshot>, sizes: seq<nat>, maxSize: int, workers: int)
    returns (flushSet: seq<seq<nat>>, oldSegIdxs: seq<nat>, numSegsToFlushOut: nat)
    requires |segments| == |sizes|
    ensures flushSet == Flushables(segments, sizes, maxSize, workers)
    ensures oldSegIdxs == Joined(flushSet) && numSegsToFlushOut == |oldSegIdxs|
  {
    flushSet, oldSegIdxs, numSegsToFlushOut := [], [], 0;
    var sbsIndexes: seq<nat>, totSize: nat := [], 0;
    ghost var n := StopsAt(segments, sizes, maxSize, workers, 0);
    var i := 0;
    while i < |segments|
      invariant i <= n
      invariant Groups(flushSet, sbsIndexes, totSize) == Grouped(segments, sizes, maxSize, i)
      invariant oldSegIdxs == Joined(flushSet) && numSegsToFlushOut == |oldSegIdxs|
    {
      if totSize >= maxSize && |sbsIndexes| >= MIN_SEGMENTS_FOR_IN_MEMORY_MERGE {
        JoinedSnoc(flushSet, sbsIndexes);
        numSegsToFlushOut := numSegsToFlushOut + |sbsIndexes|;
        flushSet, oldSegIdxs := flushSet + [sbsIndexes], oldSegIdxs + sbsIndexes;
        sbsIndexes, totSize := [], 0;
      }
      if |flushSet| >= workers {
        assert AllBusy(segments, sizes, maxSize, workers, i);
        break;
      }
      if !segments[i].file {
        sbsIndexes, totSize := sbsIndexes + [i], totSize + sizes[i];
      }
      i := i + 1;
    }
    if |flushSet| < workers {
      JoinedSnoc(flushSet, sbsIndexes);
      numSegsToFlushOut := numSegsToFlushOut + |sbsIndexes|;
      flushSet, oldSegIdxs := flushSet + [sbsIndexes], oldSegIdxs + sbsIndexes;
    }
  }

  // ---- which segments take part ----

  /** The positions of the in-memory segments among the first `n`. */
  function MemoryPositions(segments: seq<SegmentSnapshot>, n: nat): seq<nat>
    requires n <= |segments|
  {
    if n == 0 then [] else
      if segments[n - 1].file then MemoryPositions(segments, n - 1) else MemoryPositions(segments, n - 1) + [n - 1]
  }

  lemma {:induction false} MemoryPositionsAre(segments: seq<SegmentSnapshot>, n: nat)
    requires n <= |segments|
    ensures
      var r := MemoryPositions(segments, n);
      && (forall k | 0 <= k < |r| :: r[k] < n && !segments[r[k]].file)
      && (forall j, k | 0 <= j < k < |r| :: r[j] < r[k])
      && (forall i | 0 <= i < n && !segments[i].file :: i in r)
  {
    if n > 0 {
      MemoryPositionsAre(segments, n - 1);
    }
  }

  lemma {:induction false} CloseTakes(g: Groups, maxSize: int)
    ensures Joined(Close(g, maxSize).full) + Close(g, maxSize).current == Joined(g.full) + g.current
  {
    JoinedSnoc(g.full, g.current);
    hide Joined;
    assert Joined(g.full) + g.current + [] == Joined(g.full) + g.current;
  }

  /** No segment is lost or taken twice on the way into the groups. */
  lemma {:induction false} GroupedTakes(segments: seq<SegmentSnapshot>, sizes: seq<nat>, maxSize: int, n: nat)
    requires n <= |segments| == |sizes|
    ensures
      var g := Grouped(segments, sizes, maxSize, n);
      Joined(g.full) + g.current == MemoryPositions(segments, n)
  {
    hide *;
    if n == 0 {
      NoneJoined(segments, sizes, maxSize);
    } else {
      GroupedTakes(segments, sizes, maxSize, n - 1);
      var g := Close(Grouped(segments, sizes, maxSize, n - 1), maxSize);
      CloseTakes(Grouped(segments, sizes, maxSize, n - 1), maxSize);
      GroupedStep(segments, sizes, maxSize, n);
      OneMore(Joined(g.full), g.current, n - 1);
    }
  }

  lemma {:induction false} GroupedStep(segments: seq<SegmentSnapshot>, sizes: seq<nat>, maxSize: int, n: nat)
    requires 0 < n <= |segments| == |sizes|
    ensures
      var before, g := MemoryPositions(segments, n - 1), Close(Grouped(segments, sizes, maxSize, n - 1), maxSize);
      && Grouped(segments, sizes, maxSize, n)
           == (if segments[n - 1].file then g else Groups(g.full, g.current + [n - 1], g.size + sizes[n - 1]))
      && MemoryPositions(segments, n) == (if segments[n - 1].file then before else before + [n - 1])
  {
    hide Close;
  }

  lemma {:induction false} OneMore(a: seq<nat>, b: seq<nat>, i: nat)
    ensures a + (b + [i]) == a + b + [i]
  {
  }

  lemma {:induction false} NoneJoined(segments: seq<SegmentSnapshot>, sizes: seq<nat>, maxSize: int)
    requires |segments| == |sizes|
    ensures Joined([]) == MemoryPositions(segments, 0) == [] && Grouped(segments, sizes, maxSize, 0) == Groups([], [], 0)
  {
  }

  /** The workers get the in-memory segments before the one that stops the loop, in order, each once. */
  lemma {:induction false} TakenInOrder(segments: seq<SegmentSnapshot>, sizes: seq<nat>, maxSize: int, workers: int)
    requires |segments| == |sizes|
    ensures Joined(Flushables(segments, sizes, maxSize, workers))
         == MemoryPositions(segments, StopsAt(segments, sizes, maxSize, workers, 0))
  {
    var n := StopsAt(segments, sizes, maxSize, workers, 0);
    var g := Grouped(segments, sizes, maxSize, n);
    GroupedTakes(segments, sizes, maxSize, n);
    CloseTakes(g, maxSize);
    if n > 0 {
      assert !AllBusy(segments, sizes, maxSize, workers, n - 1);
      assert |g.full| < workers;
    }
    if n == |segments| {
      JoinedSnoc(g.full, g.current);
    }
  }

  lemma {:induction false} StaysBusy(segments: seq<SegmentSnapshot>, sizes: seq<nat>, maxSize: int, workers: int, i: nat, k: nat)
    requires i <= k < |segments| == |sizes| && AllBusy(segments, sizes, maxSize, workers, i)
    ensures AllBusy(segments, sizes, maxSize, workers, k)
  {
    if i < k {
      StaysBusy(segments, sizes, maxSize, workers, i, k - 1);
    }
  }

  /** Exactly the in-memory segments that find a free worker take part. */
  lemma {:induction false} TakenIff(segments: seq<SegmentSnapshot>, sizes: seq<nat>, maxSize: int, workers: int, i: nat)
    requires i < |segments| == |sizes|
    ensures i in Joined(Flushables(segments, sizes, maxSize, workers))
       <==> !segments[i].file && !AllBusy(segments, sizes, maxSize, workers, i)
  {
    var n := StopsAt(segments, sizes, maxSize, workers, 0);
    TakenInOrder(segments, sizes, maxSize, workers);
    MemoryPositionsAre(segments, StopsAt(segments, sizes, maxSize, workers, 0));
    hide Joined, Flushables, AllBusy;
    if i >= n {
      StaysBusy(segments, sizes, maxSize, workers, n, i);
    }
  }

  // ---- when a group is full ----

  /** The size of the segments at these positions. */
  function Total(sizes: seq<nat>, group: seq<nat>): nat
    requires forall k | 0 <= k < |group| :: group[k] < |sizes|
  {
    if group == [] then 0 else Total(sizes, group[..|group| - 1]) + sizes[group[|group| - 1]]
  }

  predicate LargeEnough(sizes: seq<nat>, maxSize: int, group: seq<nat>) {
    (forall k | 0 <= k < |group| :: group[k] < |sizes|) && Total(sizes, group) >= maxSize && |group| >= 2
  }

  /** It was not large enough before its last segment came. */
  predicate NotBefore(sizes: seq<nat>, maxSize: int, group: seq<nat>) {
    forall n | 0 <= n < |group| :: !LargeEnough(sizes, maxSize, group[..n])
  }

  predicate FullGroups(sizes: seq<nat>, maxSize: int, groups: seq<seq<nat>>) {
    forall w | 0 <= w < |groups| :: LargeEnough(sizes, maxSize, groups[w]) && NotBefore(sizes, maxSize, groups[w])
  }

  ghost predicate Filling(sizes: seq<nat>, maxSize: int, g: Groups) {
    && FullGroups(sizes, maxSize, g.full) && NotBefore(sizes, maxSize, g.current)
    && (forall k | 0 <= k < |g.current| :: g.current[k] < |sizes|) && g.size == Total(sizes, g.current)
  }

  lemma {:induction false} CloseFills(sizes: seq<nat>, maxSize: int, g: Groups)
    requires Filling(sizes, maxSize, g)
    ensures Filling(sizes, maxSize, Close(g, maxSize)) && !LargeEnough(sizes, maxSize, Close(g, maxSize).current)
  {
    hide NotBefore;
    assert NotBefore(sizes, maxSize, []) && !LargeEnough(sizes, maxSize, []) by {
      NothingLarge(sizes, maxSize);
    }
  }

  lemma {:induction false} NothingLarge(sizes: seq<nat>, maxSize: int)
    ensures NotBefore(sizes, maxSize, []) && !LargeEnough(sizes, maxSize, [])
  {
  }

  lemma {:induction false} OneMoreFills(sizes: seq<nat>, maxSize: int, group: seq<nat>, i: nat)
    requires NotBefore(sizes, maxSize, group) && !LargeEnough(sizes, maxSize, group) && i < |sizes|
    requires forall k | 0 <= k < |group| :: group[k] < |sizes|
    ensures NotBefore(sizes, maxSize, group + [i]) && Total(sizes, group + [i]) == Total(sizes, group) + sizes[i]
  {
    hide LargeEnough;
    var now := group + [i];
    assert now[..|group|] == group;
    forall n | 0 <= n < |now|
      ensures !LargeEnough(sizes, maxSize, now[..n])
    {
      assert now[..n] == group[..n];
      assert n == |group| ==> group[..n] == group;
    }
  }

  lemma {:induction false} AddFills(sizes: seq<nat>, maxSize: int, g: Groups, i: nat)
    requires Filling(sizes, maxSize, g) && !LargeEnough(sizes, maxSize, g.current) && i < |sizes|
    ensures Filling(sizes, maxSize, Groups(g.full, g.current + [i], g.size + sizes[i]))
  {
    OneMoreFills(sizes, maxSize, g.current, i);
    hide FullGroups, NotBefore, LargeEnough, Total;
  }

  lemma {:induction false} NoneFills(sizes: seq<nat>, maxSize: int)
    ensures Filling(sizes, maxSize, Groups([], [], 0))
  {
    NothingLarge(sizes, maxSize);
  }

  lemma {:induction false} GroupedFills(segments: seq<SegmentSnapshot>, sizes: seq<nat>, maxSize: int, n: nat)
    requires n <= |segments| == |sizes|
    ensures Filling(sizes, maxSize, Grouped(segments, sizes, maxSize, n))
  {
    hide *;
    if n > 0 {
      var before := Grouped(segments, sizes, maxSize, n - 1);
      GroupedFills(segments, sizes, maxSize, n - 1);
      CloseFills(sizes, maxSize, before);
      AddFills(sizes, maxSize, Close(before, maxSize), n - 1);
      GroupedStep(segments, sizes, maxSize, n);
    } else {
      NoneFills(sizes, maxSize);
      NoneJoined(segments, sizes, maxSize);
    }
  }

  /** Every group goes to its worker as soon as it is large enough: with its last segment it reaches the limit
      and has two segments at least, and before it did not. Only the last one may stay short of that,
      and then no segment is left over. Without a worker there is no group. */
  lemma {:induction false} AsSoonAsLarge(segments: seq<SegmentSnapshot>, sizes: seq<nat>, maxSize: int, workers: int)
    requires |segments| == |sizes|
    ensures
      var groups := Flushables(segments, sizes, maxSize, workers);
      && (workers <= 0 ==> groups == [])
      && (workers > 0 ==>
            && 1 <= |groups| <= workers
            && FullGroups(sizes, maxSize, groups[..|groups| - 1]) && NotBefore(sizes, maxSize, groups[|groups| - 1])
            && ((exists i :: 0 <= i < |segments| && !segments[i].file && i !in Joined(groups)) ==>
                  |groups| == workers && LargeEnough(sizes, maxSize, groups[|groups| - 1])))
  {
    var n := StopsAt(segments, sizes, maxSize, workers, 0);
    var g := Grouped(segments, sizes, maxSize, n);
    GroupedFills(segments, sizes, maxSize, n);
    CloseFills(sizes, maxSize, g);
    FewFull(segments, sizes, maxSize, workers, n);
    NoneJoined(segments, sizes, maxSize);
    if n == |segments| {
      TakenInOrder(segments, sizes, maxSize, workers);
      MemoryPositionsAre(segments, n);
    }
    hide NotBefore, LargeEnough, Grouped, StopsAt, Joined;
  }

  /** Before every worker is busy there are fewer full groups than workers. */
  lemma {:induction false} FewFull(segments: seq<SegmentSnapshot>, sizes: seq<nat>, maxSize: int, workers: int, n: nat)
    requires |segments| == |sizes| && n == StopsAt(segments, sizes, maxSize, workers, 0)
    ensures workers > 0 ==> |Grouped(segments, sizes, maxSize, n).full| < workers
    ensures workers <= 0 ==> n == 0
  {
    if n > 0 {
      assert !AllBusy(segments, sizes, maxSize, workers, n - 1);
    }
  }

  // ---- the inputs of the workers ----

  lemma {:induction false} JoinedMember(groups: seq<seq<nat>>, w: nat, j: nat)
    requires w < |groups| && j < |groups[w]|
    ensures groups[w][j] in Joined(groups)
  {
    var n := |groups| - 1;
    if w < n {
      JoinedMember(groups[..n], w, j);
    }
  }

  lemma {:induction false} InRange(segments: seq<SegmentSnapshot>, sizes: seq<nat>, maxSize: int, workers: int)
    requires |segments| == |sizes|
    ensures
      var groups := Flushables(segments, sizes, maxSize, workers);
      forall w, j | 0 <= w < |groups| && 0 <= j < |groups[w]| :: groups[w][j] < |segments|
  {
    TakenInOrder(segments, sizes, maxSize, workers);
    MemoryPositionsAre(segments, StopsAt(segments, sizes, maxSize, workers, 0));
    var groups := Flushables(segments, sizes, maxSize, workers);
    forall w, j | 0 <= w < |groups| && 0 <= j < |groups[w]|
      ensures groups[w][j] < |segments|
    {
      JoinedMember(groups, w, j);
    }
  }

  /** The merged segments, worker by worker, are those at the joined positions. */
  lemma {:induction false} FlatPicks(segments: seq<SegmentSnapshot>, groups: seq<seq<nat>>)
    requires forall w, j | 0 <= w < |groups| && 0 <= j < |groups[w]| :: groups[w][j] < |segments|
    ensures |Flat(Merger.Picks(segments, groups))| == |Joined(groups)|
    ensures forall k | 0 <= k < |Joined(groups)| ::
              Joined(groups)[k] < |segments| && Flat(Merger.Picks(segments, groups))[k] == segments[Joined(groups)[k]]
  {
    if groups != [] {
      var n := |groups| - 1;
      FlatPicks(segments, groups[..n]);
      assert Merger.Picks(segments, groups)[..n] == Merger.Picks(segments, groups[..n]);
    }
  }

  /** Distinct positions pick distinct segments. */
  lemma {:induction false} PickedApart(segments: seq<SegmentSnapshot>, positions: seq<nat>, inputs: seq<SegmentSnapshot>)
    requires DistinctIds(segments) && |positions| == |inputs|
    requires forall j, k | 0 <= j < k < |positions| :: positions[j] < positions[k]
    requires forall k | 0 <= k < |positions| :: positions[k] < |segments| && inputs[k] == segments[positions[k]]
    ensures DistinctIds(inputs)
    ensures forall i | 0 <= i < |segments| :: segments[i].id in Ids(inputs) <==> i in positions
  {
    forall i | 0 <= i < |segments|
      ensures segments[i].id in Ids(inputs) <==> i in positions
    {
      if i in positions {
        var k :| 0 <= k < |positions| && positions[k] == i;
        assert inputs[k].id == segments[i].id;
      }
      if segments[i].id in Ids(inputs) {
        var k :| 0 <= k < |inputs| && inputs[k].id == segments[i].id;
        assert positions[k] == i;
      }
    }
  }

  function Inputs(segments: seq<SegmentSnapshot>, sizes: seq<nat>, maxSize: int, workers: int): seq<seq<SegmentSnapshot>>
    requires |segments| == |sizes|
  {
    InRange(segments, sizes, maxSize, workers);
    Merger.Picks(segments, Flushables(segments, sizes, maxSize, workers))
  }

  /** Handed to `Merger.MergeInMemorySegments`, the groups share no segment; what they take are the
      in-memory segments that find a free worker. */
  lemma {:induction false} WorkersApart(segments: seq<SegmentSnapshot>, sizes: seq<nat>, maxSize: int, workers: int)
    requires |segments| == |sizes| && DistinctIds(segments)
    ensures
      var inputs := Flat(Inputs(segments, sizes, maxSize, workers));
      && DistinctIds(inputs)
      && (forall k | 0 <= k < |inputs| :: inputs[k] in segments && !inputs[k].file)
      && forall i | 0 <= i < |segments| ::
           segments[i].id in Ids(inputs) <==> !segments[i].file && !AllBusy(segments, sizes, maxSize, workers, i)
  {
    hide Joined, Flushables, AllBusy, Flat, Merger.Picks, DistinctIds, Ids, MemoryPositions;
    InRange(segments, sizes, maxSize, workers);
    var groups := Flushables(segments, sizes, maxSize, workers);
    FlatPicks(segments, groups);
    TakenInOrder(segments, sizes, maxSize, workers);
    MemoryPositionsAre(segments, StopsAt(segments, sizes, maxSize, workers, 0));
    PickedApart(segments, Joined(groups), Flat(Merger.Picks(segments, groups)));
    forall i | 0 <= i < |segments|
      ensures i in Joined(groups) <==> !segments[i].file && !AllBusy(segments, sizes, maxSize, workers, i)
    {
      TakenIff(segments, sizes, maxSize, workers, i);
    }
  }
}
