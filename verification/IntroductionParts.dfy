/** What each of the three introductions does with segment references: which segments of the old
    root get one more, and which segments are taken over from whoever made them. */
module IntroductionParts {
  import opened Segments
  import opened Snapshots
  import R = RefCounts

  /** A segment object stands for a segment id, in memory or over a file. */
  datatype Name = Name(id: nat, file: bool)

  /** The objects of a list of segments, in order. */
  ghost predicate StandFor(names: map<nat, Name>, objects: seq<nat>, segments: seq<SegmentSnapshot>) {
    && |objects| == |segments|
    && forall i | 0 <= i < |objects| :: objects[i] in names && names[objects[i]] == Name(segments[i].id, segments[i].file)
  }

  // ---- batches ----

  /** Segments that keep a live document get one more reference. */
  function KeepSurvivors(segments: seq<SegmentSnapshot>, objects: seq<nat>, b: SegmentIntroduction): seq<R.Part>
    requires |objects| == |segments|
  {
    if segments == [] then [] else
      var n := |segments| - 1;
      var kept := KeepSurvivors(segments[..n], objects[..n], b);
      if Obsoleted(segments[n], b).LiveSize() > 0 then kept + [R.Keep(objects[n])] else kept
  }

  /** The new segment, if there is one, is taken over. */
  function BatchParts(segments: seq<SegmentSnapshot>, objects: seq<nat>, b: SegmentIntroduction, added: nat): seq<R.Part>
    requires |objects| == |segments|
  {
    KeepSurvivors(segments, objects, b) + if b.data == [] then [] else [R.Take(added)]
  }

  // ---- persists ----

  /** Reopened segments are taken over; all others get one more reference. */
  function PersistParts(segments: seq<SegmentSnapshot>, objects: seq<nat>, reopened: map<nat, nat>): seq<R.Part>
    requires |objects| == |segments|
  {
    if segments == [] then [] else
      var n := |segments| - 1;
      PersistParts(segments[..n], objects[..n], reopened)
        + [if segments[n].id in reopened then R.Take(reopened[segments[n].id]) else R.Keep(objects[n])]
  }

  /** The reopened segments that the root lists. */
  ghost function SwappedIntoRoot(segments: seq<SegmentSnapshot>, reopened: map<nat, nat>): set<nat> {
    set id | id in reopened && id in Ids(segments) :: reopened[id]
  }

  // ---- merges ----

  function KeepOthers(segments: seq<SegmentSnapshot>, objects: seq<nat>, gone: set<nat>): seq<R.Part>
    requires |objects| == |segments|
  {
    if segments == [] then [] else
      var n := |segments| - 1;
      var kept := KeepOthers(segments[..n], objects[..n], gone);
      if segments[n].id !in gone && segments[n].LiveSize() > 0 then kept + [R.Keep(objects[n])] else kept
  }

  /** The outputs of the first `n` workers that still have a live document are taken over. */
  function TakeNew(segments: seq<SegmentSnapshot>, m: SegmentMerge, outs: seq<nat>, n: nat): seq<R.Part>
    requires n <= |m.news| == |m.ids| == |outs|
  {
    if n == 0 then [] else
      var taken := TakeNew(segments, m, outs, n - 1);
      if WorthKeeping(segments, m, n - 1) then taken + [R.Take(outs[n - 1])] else taken
  }

  function MergeParts(segments: seq<SegmentSnapshot>, objects: seq<nat>, m: SegmentMerge, outs: seq<nat>): seq<R.Part>
    requires |objects| == |segments| && |m.news| == |m.ids| == |outs|
  {
    KeepOthers(segments, objects, m.history.Keys) + TakeNew(segments, m, outs, |m.news|)
  }

  ghost function TakenOuts(segments: seq<SegmentSnapshot>, m: SegmentMerge, outs: seq<nat>, n: nat): multiset<nat>
    requires n <= |m.news| == |m.ids| == |outs|
  {
    if n == 0 then multiset{} else
      if WorthKeeping(segments, m, n - 1) then TakenOuts(segments, m, outs, n - 1) + multiset{outs[n - 1]}
      else TakenOuts(segments, m, outs, n - 1)
  }

  // ---- sequences of parts ----

  lemma {:induction false} PartsConcat(a: seq<R.Part>, b: seq<R.Part>)
    ensures R.Segments(a + b) == R.Segments(a) + R.Segments(b) && R.Taken(a + b) == R.Taken(a) + R.Taken(b)
  {
    if b == [] {
      assert a + b == a;
    } else {
      var n := |b| - 1;
      assert (a + b)[..|a + b| - 1] == a + b[..n];
      PartsConcat(a, b[..n]);
    }
  }

  lemma {:induction false} OnePart(p: R.Part)
    ensures R.Segments([p]) == [p.segment] && R.Taken([p]) == if p.Take? then multiset{p.segment} else multiset{}
  {
    assert [p][..0] == [];
    assert [p][|[p]| - 1] == p;
  }

  lemma {:induction false} PartsSnoc(a: seq<R.Part>, p: R.Part)
    ensures R.Segments(a + [p]) == R.Segments(a) + [p.segment]
    ensures R.Taken(a + [p]) == if p.Take? then R.Taken(a) + multiset{p.segment} else R.Taken(a)
  {
    PartsConcat(a, [p]);
    OnePart(p);
  }

  lemma {:induction false} StandForSnoc(names: map<nat, Name>, objects: seq<nat>, segments: seq<SegmentSnapshot>, o: nat, s: SegmentSnapshot)
    requires StandFor(names, objects, segments) && o in names && names[o] == Name(s.id, s.file)
    ensures StandFor(names, objects + [o], segments + [s])
  {
  }

  lemma {:induction false} StandForPart(names: map<nat, Name>, objects: seq<nat>, segments: seq<SegmentSnapshot>, n: nat)
    requires StandFor(names, objects, segments) && n <= |segments|
    ensures StandFor(names, objects[..n], segments[..n])
  {
  }

  lemma {:induction false} StandForAt(names: map<nat, Name>, objects: seq<nat>, segments: seq<SegmentSnapshot>, i: nat)
    requires StandFor(names, objects, segments) && i < |segments|
    ensures |objects| == |segments| && objects[i] in names && names[objects[i]] == Name(segments[i].id, segments[i].file)
  {
  }

  lemma {:induction false} StandForConcat(names: map<nat, Name>, a: seq<nat>, x: seq<SegmentSnapshot>, b: seq<nat>, y: seq<SegmentSnapshot>)
    requires StandFor(names, a, x) && StandFor(names, b, y)
    ensures StandFor(names, a + b, x + y)
  {
  }

  lemma {:induction false} KeptFromMore(objects: seq<nat>, n: nat, parts: seq<R.Part>)
    requires n <= |objects| && R.KeptFrom(objects[..n], parts)
    ensures R.KeptFrom(objects, parts)
  {
    forall i | 0 <= i < |parts| && parts[i].Keep?
      ensures parts[i].segment in objects
    {
      var k :| 0 <= k < n && objects[..n][k] == parts[i].segment;
      assert objects[k] == parts[i].segment;
    }
  }

  lemma {:induction false} KeptFromSnoc(objects: seq<nat>, parts: seq<R.Part>, p: R.Part)
    requires R.KeptFrom(objects, parts) && (p.Keep? ==> p.segment in objects)
    ensures R.KeptFrom(objects, parts + [p])
  {
  }

  lemma {:induction false} KeptFromConcat(objects: seq<nat>, a: seq<R.Part>, b: seq<R.Part>)
    requires R.KeptFrom(objects, a) && R.KeptFrom(objects, b)
    ensures R.KeptFrom(objects, a + b)
  {
    var parts := a + b;
    forall i | 0 <= i < |parts| && parts[i].Keep?
      ensures parts[i].segment in objects
    {
      assert parts[i] == if i < |a| then a[i] else b[i - |a|];
    }
  }

  // ---- the three introductions ----

  lemma {:induction false} SurvivorParts(names: map<nat, Name>, objects: seq<nat>, segments: seq<SegmentSnapshot>, b: SegmentIntroduction)
    requires StandFor(names, objects, segments)
    ensures StandFor(names, R.Segments(KeepSurvivors(segments, objects, b)), Survivors(segments, b))
    ensures R.KeptFrom(objects, KeepSurvivors(segments, objects, b)) && R.Taken(KeepSurvivors(segments, objects, b)) == multiset{}
  {
    if segments != [] {
      var n := |segments| - 1;
      StandForPart(names, objects, segments, n);
      SurvivorParts(names, objects[..n], segments[..n], b);
      var kept := KeepSurvivors(segments[..n], objects[..n], b);
      KeptFromMore(objects, n, kept);
      PartsSnoc(kept, R.Keep(objects[n]));
      if Obsoleted(segments[n], b).LiveSize() > 0 {
        StandForSnoc(names, R.Segments(kept), Survivors(segments[..n], b), objects[n], Obsoleted(segments[n], b));
      }
    }
  }

  /** A batch: the parts are those of the new root, and take over the new segment and no other. */
  lemma {:induction false} BatchPartsAre(names: map<nat, Name>, objects: seq<nat>, segments: seq<SegmentSnapshot>, b: SegmentIntroduction, added: nat)
    requires StandFor(names, objects, segments) && (b.data != [] ==> added in names && names[added] == Name(b.id, false))
    ensures StandFor(names, R.Segments(BatchParts(segments, objects, b, added)), SegmentsAfterBatch(segments, b))
    ensures R.KeptFrom(objects, BatchParts(segments, objects, b, added))
    ensures R.Taken(BatchParts(segments, objects, b, added)) == if b.data == [] then multiset{} else multiset{added}
  {
    SurvivorParts(names, objects, segments, b);
    var kept := KeepSurvivors(segments, objects, b);
    hide KeepSurvivors, Survivors;
    if b.data == [] {
      assert kept + [] == kept;
    } else {
      PartsSnoc(kept, R.Take(added));
      StandForSnoc(names, R.Segments(kept), Survivors(segments, b), added, SegmentSnapshot(b.id, b.data, false, {}));
    }
  }

  ghost predicate Injective(m: map<nat, nat>) {
    forall i, j | i in m && j in m && i != j :: m[i] != m[j]
  }

  lemma {:induction false} SwappedSnoc(segments: seq<SegmentSnapshot>, reopened: map<nat, nat>, n: nat)
    requires DistinctIds(segments) && Injective(reopened) && |segments| == n + 1
    ensures
      var before := multiset(SwappedIntoRoot(segments[..n], reopened));
      multiset(SwappedIntoRoot(segments, reopened))
        == if segments[n].id in reopened then before + multiset{reopened[segments[n].id]} else before
  {
    var id := segments[n].id;
    assert id !in Ids(segments[..n]);
    assert Ids(segments) == Ids(segments[..n]) + {id};
    if id in reopened {
      assert reopened[id] !in SwappedIntoRoot(segments[..n], reopened);
      assert SwappedIntoRoot(segments, reopened) == SwappedIntoRoot(segments[..n], reopened) + {reopened[id]};
    } else {
      assert SwappedIntoRoot(segments, reopened) == SwappedIntoRoot(segments[..n], reopened);
    }
  }

  /** A persist: the reopened segments that the root lists are taken over, each once. */
  lemma {:induction false} PersistPartsAre(names: map<nat, Name>, objects: seq<nat>, segments: seq<SegmentSnapshot>,
                                           reopened: map<nat, nat>, persisted: map<nat, seq<Entry>>)
    requires StandFor(names, objects, segments) && DistinctIds(segments) && Injective(reopened) && reopened.Keys == persisted.Keys
    requires forall id <- reopened :: reopened[id] in names && names[reopened[id]] == Name(id, true)
    ensures StandFor(names, R.Segments(PersistParts(segments, objects, reopened)), SegmentsAfterPersist(segments, persisted))
    ensures R.KeptFrom(objects, PersistParts(segments, objects, reopened))
    ensures R.Taken(PersistParts(segments, objects, reopened)) == multiset(SwappedIntoRoot(segments, reopened))
  {
    if segments == [] {
      assert SwappedIntoRoot(segments, reopened) == {};
    } else {
      hide StandFor, SwappedIntoRoot, R.Taken, R.Segments, R.KeptFrom, Injective, SegmentsAfterPersist;
      var n := |segments| - 1;
      StandForAt(names, objects, segments, n);
      StandForPart(names, objects, segments, n);
      PersistPartsAre(names, objects[..n], segments[..n], reopened, persisted);
      SwappedSnoc(segments, reopened, n);
      var before := PersistParts(segments[..n], objects[..n], reopened);
      var last := if segments[n].id in reopened then R.Take(reopened[segments[n].id]) else R.Keep(objects[n]);
      KeptFromMore(objects, n, before);
      KeptFromSnoc(objects, before, last);
      PartsSnoc(before, last);
      StandForSnoc(names, R.Segments(before), SegmentsAfterPersist(segments[..n], persisted), last.segment, Replaced(segments[n], persisted));
      PersistSnoc(segments, persisted);
    }
  }

  lemma {:induction false} PersistSnoc(segments: seq<SegmentSnapshot>, persisted: map<nat, seq<Entry>>)
    requires segments != []
    ensures
      var n := |segments| - 1;
      SegmentsAfterPersist(segments, persisted) == SegmentsAfterPersist(segments[..n], persisted) + [Replaced(segments[n], persisted)]
  {
  }

  lemma {:induction false} OtherParts(names: map<nat, Name>, objects: seq<nat>, segments: seq<SegmentSnapshot>, gone: set<nat>)
    requires StandFor(names, objects, segments)
    ensures StandFor(names, R.Segments(KeepOthers(segments, objects, gone)), Kept(segments, gone))
    ensures R.KeptFrom(objects, KeepOthers(segments, objects, gone)) && R.Taken(KeepOthers(segments, objects, gone)) == multiset{}
  {
    if segments != [] {
      var n := |segments| - 1;
      StandForPart(names, objects, segments, n);
      OtherParts(names, objects[..n], segments[..n], gone);
      var kept := KeepOthers(segments[..n], objects[..n], gone);
      KeptFromMore(objects, n, kept);
      PartsSnoc(kept, R.Keep(objects[n]));
      if segments[n].id !in gone && segments[n].LiveSize() > 0 {
        StandForSnoc(names, R.Segments(kept), Kept(segments[..n], gone), objects[n], segments[n]);
      }
    }
  }

  lemma {:induction false} NewParts(names: map<nat, Name>, segments: seq<SegmentSnapshot>, m: SegmentMerge, outs: seq<nat>, n: nat)
    requires n <= |m.news| == |m.ids| == |outs|
    requires forall w | 0 <= w < n :: outs[w] in names && names[outs[w]] == Name(m.ids[w], true)
    ensures StandFor(names, R.Segments(TakeNew(segments, m, outs, n)), NewSegments(segments, m, n))
    ensures R.Taken(TakeNew(segments, m, outs, n)) == TakenOuts(segments, m, outs, n)
  {
    if n > 0 {
      hide StandFor, R.Segments, R.Taken, NewDeleted;
      NewParts(names, segments, m, outs, n - 1);
      var taken := TakeNew(segments, m, outs, n - 1);
      if WorthKeeping(segments, m, n - 1) {
        PartsSnoc(taken, R.Take(outs[n - 1]));
        StandForSnoc(names, R.Segments(taken), NewSegments(segments, m, n - 1), outs[n - 1], NewSegment(segments, m, n - 1));
      }
    }
  }

  lemma {:induction false} NewAreTaken(objects: seq<nat>, segments: seq<SegmentSnapshot>, m: SegmentMerge, outs: seq<nat>, n: nat)
    requires n <= |m.news| == |m.ids| == |outs|
    ensures R.KeptFrom(objects, TakeNew(segments, m, outs, n))
  {
    if n > 0 {
      hide NewDeleted;
      NewAreTaken(objects, segments, m, outs, n - 1);
    }
  }

  /** A merge with any number of outputs: those that are introduced are taken over. */
  lemma {:induction false} MergePartsAre(names: map<nat, Name>, objects: seq<nat>, segments: seq<SegmentSnapshot>, m: SegmentMerge, outs: seq<nat>)
    requires StandFor(names, objects, segments) && |m.news| == |m.ids| == |outs|
    requires forall w | 0 <= w < |outs| :: outs[w] in names && names[outs[w]] == Name(m.ids[w], true)
    ensures StandFor(names, R.Segments(MergeParts(segments, objects, m, outs)), SegmentsAfterMerge(segments, m))
    ensures R.KeptFrom(objects, MergeParts(segments, objects, m, outs))
    ensures R.Taken(MergeParts(segments, objects, m, outs)) == TakenOuts(segments, m, outs, |outs|)
  {
    OtherParts(names, objects, segments, m.history.Keys);
    NewParts(names, segments, m, outs, |outs|);
    NewAreTaken(objects, segments, m, outs, |outs|);
    var kept, taken := KeepOthers(segments, objects, m.history.Keys), TakeNew(segments, m, outs, |outs|);
    hide KeepOthers, TakeNew, Kept, NewSegments, StandFor, R.KeptFrom, R.Taken, R.Segments, TakenOuts;
    PartsConcat(kept, taken);
    KeptFromConcat(objects, kept, taken);
    StandForConcat(names, R.Segments(kept), Kept(segments, m.history.Keys), R.Segments(taken), NewSegments(segments, m, |outs|));
  }

  // ---- outputs that are dropped ----

  /** The accounts once the merge's maker has its answer: it closes its outputs only when all were dropped. */
  ghost function AfterOutputs(v: R.Accounts, segments: seq<SegmentSnapshot>, objects: seq<nat>, m: SegmentMerge, outs: seq<nat>): R.Accounts
    requires |objects| == |segments| && |m.news| == |m.ids| == |outs|
  {
    var w := R.Replace(v, MergeParts(segments, objects, m, outs));
    if NewSegments(segments, m, |m.news|) == [] then w.(owned := w.owned - multiset(outs)) else w
  }

  lemma {:induction false} TakenOutsAre(segments: seq<SegmentSnapshot>, m: SegmentMerge, outs: seq<nat>, n: nat, w: nat)
    requires n <= |m.news| == |m.ids| == |outs| && w < |outs|
    requires forall i, j | 0 <= i < j < |outs| :: outs[i] != outs[j]
    ensures TakenOuts(segments, m, outs, n)[outs[w]] == if w < n && WorthKeeping(segments, m, w) then 1 else 0
  {
    hide WorthKeeping;
    if n > 0 {
      TakenOutsAre(segments, m, outs, n - 1, w);
    }
  }

  /** An output is left with its maker, who has finished with it, exactly when it was dropped while
      another one was introduced. */
  lemma {:induction false} DroppedAmongKept(v: R.Accounts, segments: seq<SegmentSnapshot>, objects: seq<nat>, m: SegmentMerge, outs: seq<nat>, w: nat)
    requires |objects| == |segments| && |m.news| == |m.ids| == |outs| && w < |outs|
    requires (forall i, j | 0 <= i < j < |outs| :: outs[i] != outs[j]) && forall i | 0 <= i < |outs| :: v.owned[outs[i]] == 1
    ensures AfterOutputs(v, segments, objects, m, outs).owned[outs[w]] > 0
       <==> !WorthKeeping(segments, m, w) && exists k :: 0 <= k < |outs| && WorthKeeping(segments, m, k)
  {
    hide WorthKeeping, KeepOthers, TakeNew, TakenOuts, NewSegments, R.Segments, R.Taken;
    TakenOfMerge(segments, objects, m, outs);
    TakenOutsAre(segments, m, outs, |outs|, w);
    NoneIsNew(segments, m, |outs|);
    assert outs[w] in multiset(outs);
  }

  lemma {:induction false} TakenOfMerge(segments: seq<SegmentSnapshot>, objects: seq<nat>, m: SegmentMerge, outs: seq<nat>)
    requires |objects| == |segments| && |m.news| == |m.ids| == |outs|
    ensures R.Taken(MergeParts(segments, objects, m, outs)) == TakenOuts(segments, m, outs, |outs|)
  {
    var kept, taken := KeepOthers(segments, objects, m.history.Keys), TakeNew(segments, m, outs, |m.news|);
    KeptTakesNothing(segments, objects, m.history.Keys);
    TakenByNew(segments, m, outs, |outs|);
    hide KeepOthers, TakeNew, TakenOuts, R.Taken, R.Segments;
    PartsConcat(kept, taken);
  }

  lemma {:induction false} KeptTakesNothing(segments: seq<SegmentSnapshot>, objects: seq<nat>, gone: set<nat>)
    requires |objects| == |segments|
    ensures R.Taken(KeepOthers(segments, objects, gone)) == multiset{}
  {
    if segments != [] {
      var n := |segments| - 1;
      KeptTakesNothing(segments[..n], objects[..n], gone);
      PartsSnoc(KeepOthers(segments[..n], objects[..n], gone), R.Keep(objects[n]));
    }
  }

  lemma {:induction false} TakenByNew(segments: seq<SegmentSnapshot>, m: SegmentMerge, outs: seq<nat>, n: nat)
    requires n <= |m.news| == |m.ids| == |outs|
    ensures R.Taken(TakeNew(segments, m, outs, n)) == TakenOuts(segments, m, outs, n)
  {
    if n > 0 {
      hide WorthKeeping, R.Taken;
      TakenByNew(segments, m, outs, n - 1);
      PartsSnoc(TakeNew(segments, m, outs, n - 1), R.Take(outs[n - 1]));
    }
  }

  /** A segment that somebody still owns is open. */
  lemma {:induction false} OwnedIsOpen(c: R.Counters, o: nat)
    requires c.Valid() && c.View().owned[o] > 0
    ensures R.Count(c.segmentRefs, o) > 0
  {
    hide R.Listings, R.HoldsExact, R.MadeOnce, R.NoneBeyond;
  }
}
