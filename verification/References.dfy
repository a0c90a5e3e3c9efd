/** Reference counting over runs of the protocol: who holds which snapshot, who owns which segment
    that no snapshot lists yet, and what every step does with those references. */
module References {
  import opened Options
  import opened Segments
  import opened Snapshots
  import opened IndexSpec
  import opened Introducer
  import opened Store
  import opened Protocol
  import opened ProtocolInvariant
  import opened Runs
  import opened IntroductionParts
  import R = RefCounts

  /** Segments not yet handed to a snapshot: those of waiting batches, the outputs of a file merge
      and of an in-memory merge, and the segments that the persister reopened. Snapshots held: by the
      merger, by the persister (the captured one, and the root that its in-memory merge made), and by
      open backups. */
  datatype Held = Held(
    batchSegments: map<nat, nat>, mergeSegment: Option<nat>, flushSegment: Option<nat>, reopened: map<nat, nat>,
    mergerSnapshot: Option<nat>, flushSnapshot: Option<nat>, mergedRoot: Option<nat>, readers: seq<nat>)

  ghost function OptSet(o: Option<nat>): set<nat> { if o.Some? then {o.value} else {} }
  ghost function OptHold(o: Option<nat>): multiset<nat> { if o.Some? then multiset{o.value} else multiset{} }

  ghost function Owned(h: Held): set<nat> {
    h.batchSegments.Values + OptSet(h.mergeSegment) + OptSet(h.flushSegment) + h.reopened.Values
  }

  /** No segment has two owners. */
  ghost predicate Apart(h: Held) {
    && Injective(h.batchSegments) && Injective(h.reopened)
    && h.batchSegments.Values !! OptSet(h.mergeSegment) !! OptSet(h.flushSegment) !! h.reopened.Values
  }

  ghost predicate OwnersOk(v: R.Accounts, h: Held) {
    v.owned == multiset(Owned(h)) && Apart(h) && forall o <- Owned(h) :: o < v.made
  }

  ghost predicate NamesOk(names: map<nat, Name>, made: nat) {
    forall o: nat :: o in names <==> o < made
  }

  ghost predicate Named(names: map<nat, Name>, o: nat, id: nat, file: bool) {
    o in names && names[o] == Name(id, file)
  }

  ghost function WithData(batches: map<nat, InFlight>): set<nat> {
    set id | id in batches && batches[id].next.data != []
  }

  ghost function Added(f: Flush): set<nat> {
    if f.Flushing? && (f.phase.Written? || f.phase.Swapped?) then f.phase.added else {}
  }

  ghost predicate BatchesNamed(names: map<nat, Name>, h: Held, batches: map<nat, InFlight>) {
    h.batchSegments.Keys == WithData(batches) && forall id <- h.batchSegments :: Named(names, h.batchSegments[id], id, false)
  }

  ghost predicate MergeNamed(names: map<nat, Name>, h: Held, m: Merging) {
    if m.Merged? then h.mergeSegment.Some? && Named(names, h.mergeSegment.value, m.out, true) else h.mergeSegment == None
  }

  ghost predicate FlushNamed(names: map<nat, Name>, h: Held, f: Flush) {
    && (if f.Flushing? && f.phase.MergedInMemory?
        then h.flushSegment.Some? && Named(names, h.flushSegment.value, f.phase.out, true) else h.flushSegment == None)
    && h.reopened.Keys <= Added(f)
    && (forall id <- h.reopened :: Named(names, h.reopened[id], id, true))
  }

  /** The snapshot with this number lists these segments. */
  ghost predicate Holding(names: map<nat, Name>, v: R.Accounts, id: nat, segments: seq<SegmentSnapshot>) {
    id < |v.lists| && StandFor(names, v.lists[id], segments)
  }

  ghost predicate MergerHolds(names: map<nat, Name>, v: R.Accounts, h: Held, m: Merging) {
    if m.NotMerging? then h.mergerSnapshot == None
    else h.mergerSnapshot.Some? && Holding(names, v, h.mergerSnapshot.value, m.snapshot)
  }

  ghost predicate FlushHolds(names: map<nat, Name>, v: R.Accounts, h: Held, f: Flush) {
    && (if f.Idle? then h.flushSnapshot == None
        else h.flushSnapshot.Some? && Holding(names, v, h.flushSnapshot.value, f.snapshot.segments))
    && (h.mergedRoot.Some? ==> f.Flushing? && !f.phase.Captured? && !f.phase.MergedInMemory?)
    && (f.Flushing? && f.phase.Equivalent? ==> h.mergedRoot.Some?)
  }

  ghost predicate HoldsOk(v: R.Accounts, h: Held) {
    v.holds == multiset{v.root} + OptHold(h.mergerSnapshot) + OptHold(h.flushSnapshot) + OptHold(h.mergedRoot) + multiset(h.readers)
  }

  /** The counters, the goroutines and the state of the index belong together, except that the
      persister may be in the middle of reopening segments or closing them. */
  ghost predicate AlmostTied(names: map<nat, Name>, v: R.Accounts, h: Held, s: State) {
    && NamesOk(names, v.made) && Holding(names, v, v.root, s.root.segments)
    && OwnersOk(v, h) && HoldsOk(v, h)
    && BatchesNamed(names, h, s.batches) && MergeNamed(names, h, s.merger) && FlushNamed(names, h, s.flush)
    && MergerHolds(names, v, h, s.merger) && FlushHolds(names, v, h, s.flush) && |h.readers| == |s.readers|
  }

  ghost predicate AllReopened(h: Held, f: Flush) {
    f.Flushing? && f.phase.Written? ==> h.reopened.Keys == Added(f)
  }

  ghost predicate Tied(names: map<nat, Name>, v: R.Accounts, h: Held, s: State) {
    AlmostTied(names, v, h, s) && AllReopened(h, s.flush)
  }

  // ---- making a segment ----

  lemma {:induction false} StandForGrows(names: map<nat, Name>, made: nat, n: Name, objects: seq<nat>, segments: seq<SegmentSnapshot>)
    requires NamesOk(names, made) && StandFor(names, objects, segments)
    ensures StandFor(names[made := n], objects, segments)
  {
  }

  lemma {:induction false} NamedGrows(names: map<nat, Name>, made: nat, n: Name)
    requires NamesOk(names, made)
    ensures NamesOk(names[made := n], made + 1)
    ensures forall o: nat, id: nat, file :: Named(names, o, id, file) ==> Named(names[made := n], o, id, file)
  {
  }

  /** Everything but the owner of the new segment. */
  lemma {:induction false} MadeHolds(names: map<nat, Name>, v: R.Accounts, h: Held, s: State, n: Name)
    requires AlmostTied(names, v, h, s)
    ensures NamesOk(names[v.made := n], v.made + 1) && Holding(names[v.made := n], R.Made(v), v.root, s.root.segments)
    ensures HoldsOk(R.Made(v), h) && MergerHolds(names[v.made := n], R.Made(v), h, s.merger) && FlushHolds(names[v.made := n], R.Made(v), h, s.flush)
  {
    NamedGrows(names, v.made, n);
    StandForGrows(names, v.made, n, v.lists[v.root], s.root.segments);
    if !s.merger.NotMerging? {
      StandForGrows(names, v.made, n, v.lists[h.mergerSnapshot.value], s.merger.snapshot);
    }
    if !s.flush.Idle? {
      StandForGrows(names, v.made, n, v.lists[h.flushSnapshot.value], s.flush.snapshot.segments);
    }
  }

  lemma {:induction false} MadeNamed(names: map<nat, Name>, v: R.Accounts, h: Held, s: State, n: Name)
    requires AlmostTied(names, v, h, s)
    ensures BatchesNamed(names[v.made := n], h, s.batches) && MergeNamed(names[v.made := n], h, s.merger)
    ensures FlushNamed(names[v.made := n], h, s.flush)
  {
    hide Holding, OwnersOk, HoldsOk, MergerHolds, FlushHolds;
    NamedGrows(names, v.made, n);
    hide Named, NamesOk;
  }

  /** A new object belongs to nobody yet. */
  lemma {:induction false} MadeOwners(v: R.Accounts, h: Held, t: Held)
    requires OwnersOk(v, h) && Owned(t) == Owned(h) + {v.made} && Apart(t)
    ensures OwnersOk(R.Made(v), t)
  {
    hide Owned, Apart;
    assert v.made !in Owned(h);
    assert multiset(Owned(h) + {v.made}) == multiset(Owned(h)) + multiset{v.made};
  }

  lemma {:induction false} MapValues(m: map<nat, nat>, k: nat, o: nat)
    requires k !in m
    ensures m[k := o].Values == m.Values + {o}
    ensures Injective(m) && o !in m.Values ==> Injective(m[k := o])
  {
    var now := m[k := o];
    assert now[k] == o;
    forall x | x in m.Values
      ensures x in now.Values
    {
      var i :| i in m && m[i] == x;
      assert now[i] == x;
    }
  }

  lemma {:induction false} PrepareTied(names: map<nat, Name>, v: R.Accounts, h: Held, s: State,
                                       batch: Batch, data: seq<Entry>, safe: bool, callback: bool)
    requires Tied(names, v, h, s) && IdsInv(s)
    ensures
      var t, id := DoPrepare(s, batch, data, safe, callback), s.nextSegmentId + 1;
      if data == [] then Tied(names, v, h, t)
      else Tied(names[v.made := Name(id, false)], R.Made(v), h.(batchSegments := h.batchSegments[id := v.made]), t)
  {
    hide Holding, HoldsOk, MergerHolds, FlushHolds, MergeNamed, FlushNamed, NamesOk, Obsoletes, OwnersOk, BatchesNamed, AllReopened;
    var t, id := DoPrepare(s, batch, data, safe, callback), s.nextSegmentId + 1;
    NewBatch(s, batch, data, safe, callback);
    hide IdsInv, DoPrepare;
    if data == [] {
      SameBatches(names, h, s.batches, t.batches);
    } else {
      var n := Name(id, false);
      MadeHolds(names, v, h, s, n);
      MadeNamed(names, v, h, s, n);
      MadeBatch(names, v, h, s.batches, t.batches, id);
      Frame(names[v.made := n], R.Made(v), h, h.(batchSegments := h.batchSegments[id := v.made]), s);
    }
  }

  lemma {:induction false} NewBatch(s: State, batch: Batch, data: seq<Entry>, safe: bool, callback: bool)
    requires IdsInv(s)
    ensures
      var t, id := DoPrepare(s, batch, data, safe, callback), s.nextSegmentId + 1;
      && id !in WithData(s.batches) && WithData(t.batches) == (if data == [] then WithData(s.batches) else WithData(s.batches) + {id})
      && t.root == s.root && t.merger == s.merger && t.flush == s.flush && t.readers == s.readers
  {
    hide Obsoletes;
    assert s.nextSegmentId + 1 !in Reserved(s);
  }

  lemma {:induction false} SameBatches(names: map<nat, Name>, h: Held, a: map<nat, InFlight>, b: map<nat, InFlight>)
    requires BatchesNamed(names, h, a) && WithData(a) == WithData(b)
    ensures BatchesNamed(names, h, b)
  {
  }

  lemma {:induction false} MadeBatch(names: map<nat, Name>, v: R.Accounts, h: Held, a: map<nat, InFlight>, b: map<nat, InFlight>, id: nat)
    requires BatchesNamed(names[v.made := Name(id, false)], h, a) && id !in WithData(a) && WithData(b) == WithData(a) + {id}
    requires OwnersOk(v, h)
    ensures BatchesNamed(names[v.made := Name(id, false)], h.(batchSegments := h.batchSegments[id := v.made]), b)
    ensures OwnersOk(R.Made(v), h.(batchSegments := h.batchSegments[id := v.made]))
  {
    hide WithData;
    MapValues(h.batchSegments, id, v.made);
    assert v.made !in Owned(h);
    hide Injective;
    MadeOwners(v, h, h.(batchSegments := h.batchSegments[id := v.made]));
  }

  ghost predicate SameHolds(h: Held, t: Held) {
    t.mergerSnapshot == h.mergerSnapshot && t.flushSnapshot == h.flushSnapshot && t.mergedRoot == h.mergedRoot && t.readers == h.readers
  }

  /** Each condition depends on few of the variables. */
  lemma {:induction false} Frame(names: map<nat, Name>, v: R.Accounts, h: Held, t: Held, s: State)
    ensures SameHolds(h, t) ==> HoldsOk(v, h) == HoldsOk(v, t)
    ensures t.mergerSnapshot == h.mergerSnapshot ==> MergerHolds(names, v, h, s.merger) == MergerHolds(names, v, t, s.merger)
    ensures SameHolds(h, t) ==> FlushHolds(names, v, h, s.flush) == FlushHolds(names, v, t, s.flush)
    ensures t.batchSegments == h.batchSegments ==> BatchesNamed(names, h, s.batches) == BatchesNamed(names, t, s.batches)
    ensures t.mergeSegment == h.mergeSegment ==> MergeNamed(names, h, s.merger) == MergeNamed(names, t, s.merger)
    ensures t.flushSegment == h.flushSegment && t.reopened == h.reopened ==> FlushNamed(names, h, s.flush) == FlushNamed(names, t, s.flush)
    ensures t.reopened == h.reopened ==> AllReopened(h, s.flush) == AllReopened(t, s.flush)
  {
    hide Holding, Named, WithData, Added;
  }

  lemma {:induction false} MergeFilesTied(names: map<nat, Name>, v: R.Accounts, h: Held, s: State, inputs: seq<SegmentSnapshot>, task: SegmentMerge)
    requires Tied(names, v, h, s) && s.merger.Planned?
    ensures
      var t, out := DoMergeFiles(s, inputs, task), s.nextSegmentId + 1;
      Tied(names[v.made := Name(out, true)], R.Made(v), h.(mergeSegment := Some(v.made)), t)
  {
    var n, m := Name(s.nextSegmentId + 1, true), h.(mergeSegment := Some(v.made));
    MadeHolds(names, v, h, s, n);
    MadeNamed(names, v, h, s, n);
    Frame(names[v.made := n], R.Made(v), h, m, s);
    MadeMerge(v, h, m);
    hide Holding, HoldsOk, FlushHolds, FlushNamed, NamesOk, OwnersOk, BatchesNamed, AllReopened, Segments.Merged;
  }

  lemma {:induction false} MadeMerge(v: R.Accounts, h: Held, m: Held)
    requires OwnersOk(v, h)
    requires (h.mergeSegment == None && m == h.(mergeSegment := Some(v.made))) || (h.flushSegment == None && m == h.(flushSegment := Some(v.made)))
    ensures OwnersOk(R.Made(v), m)
  {
    assert v.made !in Owned(h);
    assert Owned(m) == Owned(h) + {v.made};
    MadeOwners(v, h, m);
  }

  lemma {:induction false} MergeInMemoryTied(names: map<nat, Name>, v: R.Accounts, h: Held, s: State, task: SegmentMerge)
    requires Tied(names, v, h, s) && s.flush.Flushing? && s.flush.phase.Captured?
    ensures
      var t, out := DoMergeInMemory(s, task), s.nextSegmentId + 1;
      Tied(names[v.made := Name(out, true)], R.Made(v), h.(flushSegment := Some(v.made)), t)
  {
    var n, m := Name(s.nextSegmentId + 1, true), h.(flushSegment := Some(v.made));
    MadeHolds(names, v, h, s, n);
    MadeNamed(names, v, h, s, n);
    Frame(names[v.made := n], R.Made(v), h, m, s);
    MadeMerge(v, h, m);
    hide Holding, HoldsOk, MergerHolds, MergeNamed, NamesOk, OwnersOk, BatchesNamed, Segments.Merged, MemorySegments;
  }

  /** Files are written; none is reopened yet. */
  lemma {:induction false} WriteTied(names: map<nat, Name>, v: R.Accounts, h: Held, s: State, bytesWritten: string)
    requires Tied(names, v, h, s) && CanWriteFiles(s)
    ensures AlmostTied(names, v, h, DoWriteFiles(s, bytesWritten)) && h.reopened == map[]
  {
    hide Holding, HoldsOk, MergerHolds, MergeNamed, NamesOk, OwnersOk, BatchesNamed, PrepareRecord, NewFiles, Excluded;
    assert h.reopened.Keys == {};
  }

  lemma {:induction false} ReopenOne(names: map<nat, Name>, v: R.Accounts, h: Held, s: State, id: nat)
    requires AlmostTied(names, v, h, s) && id in Added(s.flush) && id !in h.reopened
    ensures AlmostTied(names[v.made := Name(id, true)], R.Made(v), h.(reopened := h.reopened[id := v.made]), s)
  {
    var n, m := Name(id, true), h.(reopened := h.reopened[id := v.made]);
    MadeHolds(names, v, h, s, n);
    MadeNamed(names, v, h, s, n);
    Frame(names[v.made := n], R.Made(v), h, m, s);
    MadeReopened(v, h, m, id);
    hide Holding, HoldsOk, MergerHolds, MergeNamed, FlushHolds, NamesOk, OwnersOk, BatchesNamed, Added;
  }

  lemma {:induction false} MadeReopened(v: R.Accounts, h: Held, m: Held, id: nat)
    requires OwnersOk(v, h) && id !in h.reopened && m == h.(reopened := h.reopened[id := v.made])
    ensures OwnersOk(R.Made(v), m)
  {
    MapValues(h.reopened, id, v.made);
    assert v.made !in Owned(h);
    hide Injective;
    MadeOwners(v, h, m);
  }

  // ---- a new root ----

  lemma {:induction false} ReplacedHolds(names: map<nat, Name>, v: R.Accounts, h: Held, s: State, parts: seq<R.Part>, segments: seq<SegmentSnapshot>)
    requires AlmostTied(names, v, h, s) && StandFor(names, R.Segments(parts), segments)
    ensures
      var w := R.Replace(v, parts);
      && NamesOk(names, w.made) && Holding(names, w, w.root, segments)
      && MergerHolds(names, w, h, s.merger) && FlushHolds(names, w, h, s.flush)
  {
    hide R.Segments, R.Taken, StandFor, HoldsOk, OwnersOk, BatchesNamed, MergeNamed, FlushNamed;
  }

  lemma {:induction false} ReplacedRoot(v: R.Accounts, h: Held, parts: seq<R.Part>)
    requires HoldsOk(v, h)
    ensures HoldsOk(R.Replace(v, parts), h)
  {
    hide R.Segments, R.Taken;
    ReplacedSum(v.holds, v.root, |v.lists|, OptHold(h.mergerSnapshot) + OptHold(h.flushSnapshot) + OptHold(h.mergedRoot) + multiset(h.readers));
  }

  lemma {:induction false} ReplacedSum(holds: multiset<nat>, before: nat, now: nat, others: multiset<nat>)
    requires holds == multiset{before} + others
    ensures holds - multiset{before} + multiset{now} == multiset{now} + others
  {
  }

  /** The owners after some segments were taken over. */
  lemma {:induction false} TakenOwners(v: R.Accounts, h: Held, t: Held, parts: seq<R.Part>, taken: set<nat>)
    requires OwnersOk(v, h) && R.Taken(parts) == multiset(taken) && taken <= Owned(h) && Owned(t) == Owned(h) - taken && Apart(t)
    ensures R.Taken(parts) <= v.owned && OwnersOk(R.Replace(v, parts), t)
  {
    hide Owned, Apart, R.Taken, R.Segments;
    assert multiset(Owned(h)) - multiset(taken) == multiset(Owned(h) - taken);
  }

  lemma {:induction false} WithoutKey(m: map<nat, nat>, k: nat)
    requires Injective(m) && k in m
    ensures Injective(m - {k}) && (m - {k}).Values == m.Values - {m[k]}
  {
    forall x | x in m.Values && x != m[k]
      ensures x in (m - {k}).Values
    {
      var i :| i in m && m[i] == x;
      assert (m - {k})[i] == x;
    }
  }

  lemma {:induction false} Unpack(names: map<nat, Name>, v: R.Accounts, h: Held, s: State)
    requires Tied(names, v, h, s)
    ensures AlmostTied(names, v, h, s) && AllReopened(h, s.flush)
    ensures NamesOk(names, v.made) && Holding(names, v, v.root, s.root.segments) && OwnersOk(v, h) && HoldsOk(v, h)
    ensures BatchesNamed(names, h, s.batches) && MergeNamed(names, h, s.merger) && FlushNamed(names, h, s.flush)
    ensures MergerHolds(names, v, h, s.merger) && FlushHolds(names, v, h, s.flush) && |h.readers| == |s.readers|
    ensures v.root < |v.lists| && StandFor(names, v.lists[v.root], s.root.segments) && |v.lists[v.root]| == |s.root.segments|
  {
  }

  lemma {:induction false} Pack(names: map<nat, Name>, v: R.Accounts, h: Held, s: State)
    requires NamesOk(names, v.made) && Holding(names, v, v.root, s.root.segments) && OwnersOk(v, h) && HoldsOk(v, h)
    requires BatchesNamed(names, h, s.batches) && MergeNamed(names, h, s.merger) && FlushNamed(names, h, s.flush)
    requires MergerHolds(names, v, h, s.merger) && FlushHolds(names, v, h, s.flush) && |h.readers| == |s.readers|
    ensures AlmostTied(names, v, h, s) && (AllReopened(h, s.flush) ==> Tied(names, v, h, s))
  {
  }

  /** A batch takes over its own segment. */
  lemma {:induction false} BatchTied(names: map<nat, Name>, v: R.Accounts, h: Held, s: State, id: nat, parts: seq<R.Part>)
    requires Tied(names, v, h, s) && id in s.batches && s.batches[id].next.id == id
    requires parts == BatchParts(s.root.segments, v.lists[v.root], s.batches[id].next, if id in h.batchSegments then h.batchSegments[id] else 0)
    ensures R.KeptFrom(v.lists[v.root], parts) && R.Taken(parts) <= v.owned
    ensures Tied(names, R.Replace(v, parts), h.(batchSegments := h.batchSegments - {id}), DoIntroduceBatch(s, id))
  {
    hide *;
    Unpack(names, v, h, s);
    var b, t := s.batches[id].next, h.(batchSegments := h.batchSegments - {id});
    BatchSegment(names, h, s.batches, id);
    BatchPartsAre(names, v.lists[v.root], s.root.segments, b, if id in h.batchSegments then h.batchSegments[id] else 0);
    IntroducedBatch(s, id);
    ReplacedHolds(names, v, h, s, parts, SegmentsAfterBatch(s.root.segments, b));
    ReplacedRoot(v, h, parts);
    BatchOwners(v, h, t, parts, id);
    SameHeld(h, t);
    Frame(names, R.Replace(v, parts), h, t, s);
    Pack(names, R.Replace(v, parts), t, DoIntroduceBatch(s, id));
  }

  lemma {:induction false} SameHeld(h: Held, t: Held)
    requires t.mergerSnapshot == h.mergerSnapshot && t.flushSnapshot == h.flushSnapshot && t.mergedRoot == h.mergedRoot && t.readers == h.readers
    ensures SameHolds(h, t)
  {
  }

  lemma {:induction false} BatchSegment(names: map<nat, Name>, h: Held, batches: map<nat, InFlight>, id: nat)
    requires BatchesNamed(names, h, batches) && id in batches
    ensures id in h.batchSegments <==> batches[id].next.data != []
    ensures id in h.batchSegments ==> h.batchSegments[id] in names && names[h.batchSegments[id]] == Name(id, false)
    ensures BatchesNamed(names, h.(batchSegments := h.batchSegments - {id}), batches - {id})
  {
  }

  lemma {:induction false} IntroducedBatch(s: State, id: nat)
    requires id in s.batches
    ensures
      var t := DoIntroduceBatch(s, id);
      && t.root.segments == SegmentsAfterBatch(s.root.segments, s.batches[id].next) && t.batches == s.batches - {id}
      && t.merger == s.merger && t.flush == s.flush && t.readers == s.readers
  {
    hide SegmentsAfterBatch, DroppedByBatch;
  }

  lemma {:induction false} WithoutBatch(h: Held, t: Held, id: nat)
    requires Apart(h) && id in h.batchSegments && t == h.(batchSegments := h.batchSegments - {id})
    ensures h.batchSegments[id] in Owned(h) && Owned(t) == Owned(h) - {h.batchSegments[id]} && Apart(t)
  {
    WithoutKey(h.batchSegments, id);
    hide Injective;
  }

  lemma {:induction false} BatchOwners(v: R.Accounts, h: Held, t: Held, parts: seq<R.Part>, id: nat)
    requires OwnersOk(v, h) && t == h.(batchSegments := h.batchSegments - {id})
    requires R.Taken(parts) == if id in h.batchSegments then multiset{h.batchSegments[id]} else multiset{}
    ensures R.Taken(parts) <= v.owned && OwnersOk(R.Replace(v, parts), t)
  {
    hide R.Taken, R.Segments, Owned, Apart;
    if id in h.batchSegments {
      WithoutBatch(h, t, id);
      TakenOwners(v, h, t, parts, {h.batchSegments[id]});
    } else {
      assert t == h by { assert h.batchSegments - {id} == h.batchSegments; }
      var none: set<nat> := {};
      assert multiset(none) == multiset{} && Owned(h) - none == Owned(h);
      TakenOwners(v, h, t, parts, none);
    }
  }

  // ---- merges ----

  /** The only output is taken over, or the merge is skipped. */
  lemma {:induction false} OneOutput(names: map<nat, Name>, objects: seq<nat>, segments: seq<SegmentSnapshot>, task: SegmentMerge, out: nat, o: nat)
    requires StandFor(names, objects, segments) && Named(names, o, out, true) && task.ids == [out] && |task.news| == 1
    ensures StandFor(names, R.Segments(MergeParts(segments, objects, task, [o])), SegmentsAfterMerge(segments, task))
    ensures R.KeptFrom(objects, MergeParts(segments, objects, task, [o]))
    ensures R.Taken(MergeParts(segments, objects, task, [o])) == if Skipped(segments, task) then multiset{} else multiset{o}
  {
    hide MergeParts, SegmentsAfterMerge, R.Taken, R.Segments, R.KeptFrom, NewDeleted, StandFor;
    MergePartsAre(names, objects, segments, task, [o]);
    assert TakenOuts(segments, task, [o], 0) == multiset{} && NewSegments(segments, task, 0) == [];
  }

  lemma {:induction false} ClosedOwner(v: R.Accounts, h: Held, t: Held, o: nat)
    requires OwnersOk(v, h) && o in Owned(h) && Owned(t) == Owned(h) - {o} && Apart(t)
    ensures v.owned[o] > 0 && OwnersOk(R.Dropped(v, o), t)
  {
    hide Owned, Apart;
    assert multiset(Owned(h)) - multiset{o} == multiset(Owned(h) - {o});
  }

  lemma {:induction false} WithoutOutput(h: Held, t: Held, o: nat)
    requires Apart(h)
    requires (h.mergeSegment == Some(o) && t == h.(mergeSegment := None)) || (h.flushSegment == Some(o) && t == h.(flushSegment := None))
    ensures o in Owned(h) && Owned(t) == Owned(h) - {o} && Apart(t)
  {
    hide Injective;
  }

  /** The counters after a merge with one output: a skipped output is closed. */
  ghost function AfterTask(v: R.Accounts, parts: seq<R.Part>, skipped: bool, o: nat): R.Accounts {
    var w := R.Replace(v, parts);
    if skipped then R.Dropped(w, o) else w
  }

  lemma {:induction false} TaskOwners(v: R.Accounts, h: Held, t: Held, parts: seq<R.Part>, skipped: bool, o: nat)
    requires OwnersOk(v, h) && R.Taken(parts) == if skipped then multiset{} else multiset{o}
    requires (h.mergeSegment == Some(o) && t == h.(mergeSegment := None)) || (h.flushSegment == Some(o) && t == h.(flushSegment := None))
    ensures R.Taken(parts) <= v.owned && (skipped ==> R.Replace(v, parts).owned[o] > 0) && OwnersOk(AfterTask(v, parts, skipped, o), t)
  {
    hide R.Taken, R.Segments, Owned, Apart;
    assert Apart(h);
    WithoutOutput(h, t, o);
    if skipped {
      var none: set<nat> := {};
      assert multiset(none) == multiset{} && Owned(h) - none == Owned(h);
      TakenOwners(v, h, h, parts, none);
      ClosedOwner(R.Replace(v, parts), h, t, o);
    } else {
      TakenOwners(v, h, t, parts, {o});
    }
  }

  lemma {:induction false} AfterTaskHolds(names: map<nat, Name>, v: R.Accounts, h: Held, s: State, parts: seq<R.Part>, skipped: bool, o: nat,
                                          segments: seq<SegmentSnapshot>)
    ensures
      var w, x := R.Replace(v, parts), AfterTask(v, parts, skipped, o);
      && HoldsOk(w, h) == HoldsOk(x, h) && MergerHolds(names, w, h, s.merger) == MergerHolds(names, x, h, s.merger)
      && FlushHolds(names, w, h, s.flush) == FlushHolds(names, x, h, s.flush) && x.root == w.root && x.made == w.made
      && Holding(names, w, w.root, segments) == Holding(names, x, x.root, segments)
  {
    hide R.Segments, R.Taken, StandFor;
  }

  lemma {:induction false} FileMergeTied(names: map<nat, Name>, v: R.Accounts, h: Held, s: State, parts: seq<R.Part>)
    requires Tied(names, v, h, s) && s.merger.Merged? && s.merger.task.ids == [s.merger.out] && |s.merger.task.news| == 1
    requires parts == MergeParts(s.root.segments, v.lists[v.root], s.merger.task, [h.mergeSegment.value])
    ensures
      var o, skipped := h.mergeSegment.value, Skipped(s.root.segments, s.merger.task);
      && R.KeptFrom(v.lists[v.root], parts) && R.Taken(parts) <= v.owned && (skipped ==> R.Replace(v, parts).owned[o] > 0)
      && Tied(names, AfterTask(v, parts, skipped, o), h.(mergeSegment := None), DoIntroduceFileMerge(s))
  {
    hide *;
    Unpack(names, v, h, s);
    MergeOwner(names, h, s.merger);
    var o, t, skipped := h.mergeSegment.value, h.(mergeSegment := None), Skipped(s.root.segments, s.merger.task);
    OneOutput(names, v.lists[v.root], s.root.segments, s.merger.task, s.merger.out, o);
    IntroducedFileMerge(s);
    ReplacedHolds(names, v, h, s, parts, SegmentsAfterMerge(s.root.segments, s.merger.task));
    ReplacedRoot(v, h, parts);
    TaskOwners(v, h, t, parts, skipped, o);
    AfterTaskHolds(names, v, h, s, parts, skipped, o, SegmentsAfterMerge(s.root.segments, s.merger.task));
    SameHeld(h, t);
    Frame(names, AfterTask(v, parts, skipped, o), h, t, s);
    MergedAway(names, AfterTask(v, parts, skipped, o), t, s.merger, DoIntroduceFileMerge(s).merger);
    Pack(names, AfterTask(v, parts, skipped, o), t, DoIntroduceFileMerge(s));
  }

  lemma {:induction false} MergeOwner(names: map<nat, Name>, h: Held, m: Merging)
    requires MergeNamed(names, h, m) && m.Merged?
    ensures h.mergeSegment.Some? && Named(names, h.mergeSegment.value, m.out, true)
  {
  }

  lemma {:induction false} MergedAway(names: map<nat, Name>, v: R.Accounts, h: Held, m: Merging, now: Merging)
    requires m.Merged? && now.Planned? && now.snapshot == m.snapshot && h.mergeSegment == None && MergerHolds(names, v, h, m)
    ensures MergerHolds(names, v, h, now) && MergeNamed(names, h, now)
  {
    hide Holding;
  }

  lemma {:induction false} IntroducedFileMerge(s: State)
    requires s.merger.Merged? && |s.merger.task.news| == |s.merger.task.ids|
    ensures
      var t := DoIntroduceFileMerge(s);
      && t.root.segments == SegmentsAfterMerge(s.root.segments, s.merger.task) && t.merger.Planned? && t.merger.snapshot == s.merger.snapshot
      && t.batches == s.batches && t.flush == s.flush && t.readers == s.readers
  {
    hide SegmentsAfterMerge, DroppedByMerge, Skipped;
  }

  /** The root that the merge made goes to the persister, who holds it while it writes. */
  lemma {:induction false} MemoryMergeTied(names: map<nat, Name>, v: R.Accounts, h: Held, s: State, parts: seq<R.Part>)
    requires Tied(names, v, h, s) && s.flush.Flushing? && s.flush.phase.MergedInMemory?
    requires s.flush.phase.task.ids == [s.flush.phase.out] && |s.flush.phase.task.news| == 1
    requires parts == MergeParts(s.root.segments, v.lists[v.root], s.flush.phase.task, [h.flushSegment.value])
    ensures
      var o, skipped := h.flushSegment.value, Skipped(s.root.segments, s.flush.phase.task);
      var w := AfterTask(v, parts, skipped, o);
      && R.KeptFrom(v.lists[v.root], parts) && R.Taken(parts) <= v.owned && (skipped ==> R.Replace(v, parts).owned[o] > 0)
      && (skipped ==> Tied(names, w, h.(flushSegment := None), DoIntroduceMemoryMerge(s)))
      && (!skipped ==> Tied(names, R.More(w, w.root), h.(flushSegment := None, mergedRoot := Some(w.root)), DoIntroduceMemoryMerge(s)))
  {
    hide *;
    Unpack(names, v, h, s);
    FlushOwner(names, v, h, s.flush);
    var o, t, skipped, after := h.flushSegment.value, h.(flushSegment := None), Skipped(s.root.segments, s.flush.phase.task), DoIntroduceMemoryMerge(s);
    OneOutput(names, v.lists[v.root], s.root.segments, s.flush.phase.task, s.flush.phase.out, o);
    IntroducedMemoryMerge(s);
    ReplacedHolds(names, v, h, s, parts, SegmentsAfterMerge(s.root.segments, s.flush.phase.task));
    ReplacedRoot(v, h, parts);
    TaskOwners(v, h, t, parts, skipped, o);
    AfterTaskHolds(names, v, h, s, parts, skipped, o, SegmentsAfterMerge(s.root.segments, s.flush.phase.task));
    var w := AfterTask(v, parts, skipped, o);
    SameHeld(h, t);
    Frame(names, w, h, t, s);
    NothingReopened(names, h, s.flush);
    if skipped {
      BackToCaptured(names, w, t, s.flush, after.flush);
      Pack(names, w, t, after);
    } else {
      var x, u := R.More(w, w.root), t.(mergedRoot := Some(w.root));
      HoldMergedRoot(names, w, t, u, s, after, SegmentsAfterMerge(s.root.segments, s.flush.phase.task));
      Pack(names, x, u, after);
    }
  }

  lemma {:induction false} FlushOwner(names: map<nat, Name>, v: R.Accounts, h: Held, f: Flush)
    requires FlushNamed(names, h, f) && FlushHolds(names, v, h, f) && f.Flushing? && f.phase.MergedInMemory?
    ensures h.flushSegment.Some? && Named(names, h.flushSegment.value, f.phase.out, true) && h.mergedRoot == None
  {
  }

  lemma {:induction false} NothingReopened(names: map<nat, Name>, h: Held, f: Flush)
    requires FlushNamed(names, h, f) && f.Flushing? && !f.phase.Written? && !f.phase.Swapped?
    ensures h.reopened == map[]
  {
    assert h.reopened.Keys == {};
  }

  lemma {:induction false} IntroducedMemoryMerge(s: State)
    requires s.flush.Flushing? && s.flush.phase.MergedInMemory? && |s.flush.phase.task.news| == |s.flush.phase.task.ids|
    ensures
      var t := DoIntroduceMemoryMerge(s);
      && t.root.segments == SegmentsAfterMerge(s.root.segments, s.flush.phase.task)
      && t.batches == s.batches && t.merger == s.merger && t.readers == s.readers && t.flush.Flushing? && t.flush.snapshot == s.flush.snapshot
      && (if Skipped(s.root.segments, s.flush.phase.task) then t.flush.phase.Captured? else t.flush.phase.Equivalent?)
  {
    hide SegmentsAfterMerge, DroppedByMerge, Skipped, EquivalentSegments;
  }

  lemma {:induction false} BackToCaptured(names: map<nat, Name>, v: R.Accounts, h: Held, f: Flush, now: Flush)
    requires f.Flushing? && now.Flushing? && now.phase.Captured? && now.snapshot == f.snapshot && FlushHolds(names, v, h, f)
    requires h.flushSegment == None && h.reopened == map[] && h.mergedRoot == None
    ensures FlushHolds(names, v, h, now) && FlushNamed(names, h, now) && AllReopened(h, now)
  {
    hide Holding, Named;
  }

  lemma {:induction false} HoldOneMore(w: R.Accounts, t: Held, u: Held)
    requires HoldsOk(w, t) && t.mergedRoot == None && u == t.(mergedRoot := Some(w.root))
    ensures HoldsOk(R.More(w, w.root), u)
  {
    var a, r, x := multiset{w.root} + OptHold(t.mergerSnapshot) + OptHold(t.flushSnapshot), multiset(t.readers), multiset{w.root};
    assert a + multiset{} + r + x == a + x + r;
  }

  lemma {:induction false} HoldMergedRoot(names: map<nat, Name>, w: R.Accounts, t: Held, u: Held, s: State, after: State, segments: seq<SegmentSnapshot>)
    requires u == t.(mergedRoot := Some(w.root)) && t.mergedRoot == None && t.flushSegment == None && t.reopened == map[]
    requires s.flush.Flushing? && after.flush.Flushing? && after.flush.phase.Equivalent? && after.flush.snapshot == s.flush.snapshot
    requires OwnersOk(w, t) && HoldsOk(w, t) && MergerHolds(names, w, t, s.merger) && FlushHolds(names, w, t, s.flush)
    requires after.merger == s.merger && Holding(names, w, w.root, segments) && NamesOk(names, w.made)
    ensures
      var x := R.More(w, w.root);
      && NamesOk(names, x.made) && OwnersOk(x, u) && HoldsOk(x, u) && MergerHolds(names, x, u, after.merger) && FlushHolds(names, x, u, after.flush)
      && Holding(names, x, x.root, segments) && FlushNamed(names, u, after.flush) && AllReopened(u, after.flush)
      && (BatchesNamed(names, t, after.batches) ==> BatchesNamed(names, u, after.batches))
      && (MergeNamed(names, t, after.merger) ==> MergeNamed(names, u, after.merger))
  {
    HoldOneMore(w, t, u);
    hide StandFor, Named, Apart, WithData, HoldsOk, OptHold;
  }

  // ---- the swap ----

  /** The root takes over the reopened segments that it lists; the others stay with the persister. */
  lemma {:induction false} SwapInTied(names: map<nat, Name>, v: R.Accounts, h: Held, s: State, parts: seq<R.Part>)
    requires Tied(names, v, h, s) && s.root.Ok() && s.flush.Flushing? && s.flush.phase.Written? && s.flush.phase.added <= s.files.Keys
    requires parts == PersistParts(s.root.segments, v.lists[v.root], h.reopened)
    ensures R.KeptFrom(v.lists[v.root], parts) && R.Taken(parts) <= v.owned
    ensures Tied(names, R.Replace(v, parts), h.(reopened := h.reopened - Ids(s.root.segments)), DoSwapIn(s))
  {
    hide *;
    Unpack(names, v, h, s);
    var t, persisted := h.(reopened := h.reopened - Ids(s.root.segments)), Reopened(s, s.flush.phase.added);
    RootDistinct(s);
    ReopenedAre(names, v, h, s);
    PersistPartsAre(names, v.lists[v.root], s.root.segments, h.reopened, persisted);
    SwappedIn(s);
    ReplacedHolds(names, v, h, s, parts, SegmentsAfterPersist(s.root.segments, persisted));
    ReplacedRoot(v, h, parts);
    SwapOwners(v, h, t, parts, s.root.segments);
    SameHeld(h, t);
    Frame(names, R.Replace(v, parts), h, t, s);
    LeftReopened(names, R.Replace(v, parts), h, t, s.flush, DoSwapIn(s).flush, Ids(s.root.segments));
    Pack(names, R.Replace(v, parts), t, DoSwapIn(s));
  }

  lemma {:induction false} RootDistinct(s: State)
    requires s.root.Ok()
    ensures DistinctIds(s.root.segments)
  {
  }

  lemma {:induction false} ReopenedAre(names: map<nat, Name>, v: R.Accounts, h: Held, s: State)
    requires FlushNamed(names, h, s.flush) && AllReopened(h, s.flush) && OwnersOk(v, h)
    requires s.flush.Flushing? && s.flush.phase.Written? && s.flush.phase.added <= s.files.Keys
    ensures Injective(h.reopened) && h.reopened.Keys == Reopened(s, s.flush.phase.added).Keys
    ensures forall id <- h.reopened :: h.reopened[id] in names && names[h.reopened[id]] == Name(id, true)
  {
  }

  lemma {:induction false} SwappedIn(s: State)
    requires s.flush.Flushing? && s.flush.phase.Written?
    ensures
      var t := DoSwapIn(s);
      && t.root.segments == SegmentsAfterPersist(s.root.segments, Reopened(s, s.flush.phase.added))
      && t.batches == s.batches && t.merger == s.merger && t.readers == s.readers
      && t.flush.Flushing? && t.flush.phase.Swapped? && t.flush.phase.added == s.flush.phase.added && t.flush.snapshot == s.flush.snapshot
  {
    hide SegmentsAfterPersist, Reopened;
  }

  lemma {:induction false} SwapOwners(v: R.Accounts, h: Held, t: Held, parts: seq<R.Part>, segments: seq<SegmentSnapshot>)
    requires OwnersOk(v, h) && t == h.(reopened := h.reopened - Ids(segments)) && R.Taken(parts) == multiset(SwappedIntoRoot(segments, h.reopened))
    ensures R.Taken(parts) <= v.owned && OwnersOk(R.Replace(v, parts), t)
  {
    hide R.Taken, R.Segments, Ids;
    var taken := SwappedIntoRoot(segments, h.reopened);
    assert Apart(h);
    assert t.reopened.Values == h.reopened.Values - taken by { SwappedValues(h.reopened, segments); }
    hide Injective, SwappedIntoRoot;
    assert taken <= h.reopened.Values by { SwappedValues(h.reopened, segments); }
    assert Apart(t) by { SwappedValues(h.reopened, segments); }
    assert Owned(t) == Owned(h) - taken;
    TakenOwners(v, h, t, parts, taken);
  }

  lemma {:induction false} SwappedValues(m: map<nat, nat>, segments: seq<SegmentSnapshot>)
    requires Injective(m)
    ensures (m - Ids(segments)).Values == m.Values - SwappedIntoRoot(segments, m) && SwappedIntoRoot(segments, m) <= m.Values && Injective(m - Ids(segments))
  {
    hide Ids;
    var left := m - Ids(segments);
    forall x | x in m.Values && x !in SwappedIntoRoot(segments, m)
      ensures x in left.Values
    {
      var i :| i in m && m[i] == x;
      assert i in left && left[i] == x;
    }
    forall x | x in left.Values
      ensures x in m.Values && x !in SwappedIntoRoot(segments, m)
    {
      var i :| i in left && left[i] == x;
      assert m[i] == x;
    }
    forall x | x in SwappedIntoRoot(segments, m)
      ensures x in m.Values
    {
      var i :| i in m && i in Ids(segments) && m[i] == x;
    }
  }

  lemma {:induction false} LeftReopened(names: map<nat, Name>, v: R.Accounts, h: Held, t: Held, f: Flush, now: Flush, ids: set<nat>)
    requires FlushNamed(names, h, f) && FlushHolds(names, v, h, f) && t == h.(reopened := h.reopened - ids)
    requires f.Flushing? && f.phase.Written? && now.Flushing? && now.phase.Swapped? && now.phase.added == f.phase.added && now.snapshot == f.snapshot
    ensures FlushNamed(names, t, now) && FlushHolds(names, v, t, now) && AllReopened(t, now)
  {
    hide Holding, Named;
  }

  // ---- taking and giving back snapshots ----

  /** What changed between two states does not matter to references. */
  lemma {:induction false} SameTied(names: map<nat, Name>, v: R.Accounts, h: Held, s: State, t: State)
    requires Tied(names, v, h, s) && t.root.segments == s.root.segments && t.batches == s.batches && t.merger == s.merger
    requires t.flush == s.flush && |t.readers| == |s.readers|
    ensures Tied(names, v, h, t)
  {
    hide Holding, OwnersOk, HoldsOk, BatchesNamed, MergeNamed, FlushNamed, MergerHolds, FlushHolds, NamesOk;
  }

  /** Holding more or fewer snapshots changes nothing else. */
  lemma {:induction false} HoldsFrame(names: map<nat, Name>, v: R.Accounts, w: R.Accounts, h: Held, s: State)
    requires w == v.(holds := w.holds) && Tied(names, v, h, s)
    ensures NamesOk(names, w.made) && Holding(names, w, w.root, s.root.segments) && OwnersOk(w, h)
    ensures MergerHolds(names, w, h, s.merger) && FlushHolds(names, w, h, s.flush)
  {
    hide StandFor, Named, Apart, WithData;
  }

  lemma {:induction false} RootIsHeld(v: R.Accounts, h: Held)
    requires HoldsOk(v, h)
    ensures v.holds[v.root] > 0
  {
  }

  lemma {:induction false} PlanTied(names: map<nat, Name>, v: R.Accounts, h: Held, s: State)
    requires Tied(names, v, h, s) && s.merger.NotMerging?
    ensures v.holds[v.root] > 0
    ensures Tied(names, R.More(v, v.root), h.(mergerSnapshot := Some(v.root)), s.(merger := Planned(s.root.segments, {})))
  {
    hide *;
    Unpack(names, v, h, s);
    RootIsHeld(v, h);
    var w, u := R.More(v, v.root), h.(mergerSnapshot := Some(v.root));
    HoldsFrameMore(names, v, v.root, h, s);
    MergerTakes(names, v, h, s.merger, s.root.segments);
    FrameMerger(names, w, h, u, s);
    Pack(names, w, u, s.(merger := Planned(s.root.segments, {})));
  }

  lemma {:induction false} HoldsFrameMore(names: map<nat, Name>, v: R.Accounts, id: nat, h: Held, s: State)
    requires Tied(names, v, h, s)
    ensures
      var w := R.More(v, id);
      && NamesOk(names, w.made) && Holding(names, w, w.root, s.root.segments) && OwnersOk(w, h)
      && MergerHolds(names, w, h, s.merger) && FlushHolds(names, w, h, s.flush)
  {
    HoldsFrame(names, v, R.More(v, id), h, s);
  }

  lemma {:induction false} HoldsFrameLess(names: map<nat, Name>, v: R.Accounts, id: nat, h: Held, s: State)
    requires Tied(names, v, h, s)
    ensures
      var w := R.Less(v, id);
      && NamesOk(names, w.made) && Holding(names, w, w.root, s.root.segments) && OwnersOk(w, h)
      && MergerHolds(names, w, h, s.merger) && FlushHolds(names, w, h, s.flush)
  {
    HoldsFrame(names, v, R.Less(v, id), h, s);
  }

  lemma {:induction false} MergerTakes(names: map<nat, Name>, v: R.Accounts, h: Held, m: Merging, segments: seq<SegmentSnapshot>)
    requires HoldsOk(v, h) && m.NotMerging? && MergerHolds(names, v, h, m) && MergeNamed(names, h, m) && Holding(names, v, v.root, segments)
    ensures
      var w, u := R.More(v, v.root), h.(mergerSnapshot := Some(v.root));
      HoldsOk(w, u) && MergerHolds(names, w, u, Planned(segments, {})) && MergeNamed(names, u, Planned(segments, {}))
  {
    hide StandFor;
    var a, r := multiset{v.root}, OptHold(h.flushSnapshot) + OptHold(h.mergedRoot) + multiset(h.readers);
    assert a + multiset{} + r + a == a + a + r;
  }

  lemma {:induction false} FrameMerger(names: map<nat, Name>, v: R.Accounts, h: Held, u: Held, s: State)
    requires u == h.(mergerSnapshot := u.mergerSnapshot)
    ensures OwnersOk(v, h) == OwnersOk(v, u) && BatchesNamed(names, h, s.batches) == BatchesNamed(names, u, s.batches)
    ensures FlushNamed(names, h, s.flush) == FlushNamed(names, u, s.flush) && FlushHolds(names, v, h, s.flush) == FlushHolds(names, v, u, s.flush)
    ensures AllReopened(h, s.flush) == AllReopened(u, s.flush)
  {
    hide Holding, Named, Injective, WithData;
  }

  lemma {:induction false} GiveBack(holds: multiset<nat>, root: nat, id: nat, others: multiset<nat>)
    requires holds == multiset{root} + multiset{id} + others
    ensures holds[id] > (if id == root then 1 else 0) && holds - multiset{id} == multiset{root} + others
  {
  }

  /** The merger is done with its round; an output that was not introduced is closed. */
  lemma {:induction false} MergerGives(names: map<nat, Name>, v: R.Accounts, h: Held, m: Merging)
    requires HoldsOk(v, h) && !m.NotMerging? && MergerHolds(names, v, h, m)
    ensures h.mergerSnapshot.Some?
    ensures
      var id := h.mergerSnapshot.value;
      v.holds[id] > (if id == v.root then 1 else 0) && HoldsOk(R.Less(v, id), h.(mergerSnapshot := None))
  {
    hide Holding;
    var r := OptHold(h.flushSnapshot) + OptHold(h.mergedRoot) + multiset(h.readers);
    GiveBack(v.holds, v.root, h.mergerSnapshot.value, r);
    assert multiset{v.root} + multiset{} + r == multiset{v.root} + r;
  }

  lemma {:induction false} FinishTied(names: map<nat, Name>, v: R.Accounts, h: Held, s: State, t: State)
    requires Tied(names, v, h, s) && s.merger.Planned? && t.merger.NotMerging?
    requires t.root == s.root && t.batches == s.batches && t.flush == s.flush && t.readers == s.readers
    ensures h.mergerSnapshot.Some? && v.holds[h.mergerSnapshot.value] > (if h.mergerSnapshot.value == v.root then 1 else 0)
    ensures Tied(names, R.Less(v, h.mergerSnapshot.value), h.(mergerSnapshot := None), t)
  {
    hide *;
    Unpack(names, v, h, s);
    MergerGives(names, v, h, s.merger);
    var w, u := R.Less(v, h.mergerSnapshot.value), h.(mergerSnapshot := None);
    HoldsFrameLess(names, v, h.mergerSnapshot.value, h, s);
    FrameMerger(names, w, h, u, s);
    NoMerger(names, w, h, u, s.merger, t.merger);
    Pack(names, w, u, t);
  }

  lemma {:induction false} NoMerger(names: map<nat, Name>, v: R.Accounts, h: Held, u: Held, m: Merging, now: Merging)
    requires MergeNamed(names, h, m) && m.Planned? && now.NotMerging? && u.mergeSegment == h.mergeSegment && u.mergerSnapshot == None
    ensures MergeNamed(names, u, now) && MergerHolds(names, v, u, now)
  {
  }

  /** Closing the output of a failed merge comes first. */
  lemma {:induction false} FailMergeTied(names: map<nat, Name>, v: R.Accounts, h: Held, s: State)
    requires Tied(names, v, h, s) && s.merger.Merged?
    ensures h.mergeSegment.Some? && v.owned[h.mergeSegment.value] > 0
    ensures Tied(names, R.Dropped(v, h.mergeSegment.value), h.(mergeSegment := None), s.(merger := Planned(s.merger.snapshot, {})))
  {
    hide *;
    Unpack(names, v, h, s);
    MergeOwner(names, h, s.merger);
    var o, u := h.mergeSegment.value, h.(mergeSegment := None);
    OwnersApart(v, h);
    WithoutOutput(h, u, o);
    ClosedOwner(v, h, u, o);
    DroppedFrame(names, v, o, h, s, s.root.segments);
    SameHeld(h, u);
    Frame(names, R.Dropped(v, o), h, u, s);
    MergedAway(names, R.Dropped(v, o), u, s.merger, Planned(s.merger.snapshot, {}));
    Pack(names, R.Dropped(v, o), u, s.(merger := Planned(s.merger.snapshot, {})));
  }

  lemma {:induction false} OwnersApart(v: R.Accounts, h: Held)
    requires OwnersOk(v, h)
    ensures Apart(h) && v.owned == multiset(Owned(h))
  {
  }

  lemma {:induction false} OwnedFrame(names: map<nat, Name>, v: R.Accounts, w: R.Accounts, h: Held, s: State, segments: seq<SegmentSnapshot>)
    requires w == v.(owned := w.owned)
    ensures HoldsOk(v, h) == HoldsOk(w, h) && MergerHolds(names, v, h, s.merger) == MergerHolds(names, w, h, s.merger)
    ensures FlushHolds(names, v, h, s.flush) == FlushHolds(names, w, h, s.flush)
    ensures Holding(names, v, v.root, segments) == Holding(names, w, w.root, segments)
  {
    hide StandFor;
  }

  lemma {:induction false} DroppedFrame(names: map<nat, Name>, v: R.Accounts, o: nat, h: Held, s: State, segments: seq<SegmentSnapshot>)
    ensures
      var w := R.Dropped(v, o);
      && HoldsOk(v, h) == HoldsOk(w, h) && MergerHolds(names, v, h, s.merger) == MergerHolds(names, w, h, s.merger)
      && FlushHolds(names, v, h, s.flush) == FlushHolds(names, w, h, s.flush) && w.made == v.made
      && Holding(names, v, v.root, segments) == Holding(names, w, w.root, segments)
  {
    OwnedFrame(names, v, R.Dropped(v, o), h, s, segments);
  }

  // ---- the persister ----

  lemma {:induction false} CaptureTied(names: map<nat, Name>, v: R.Accounts, h: Held, s: State)
    requires Tied(names, v, h, s) && s.flush.Idle?
    ensures v.holds[v.root] > 0
    ensures Tied(names, R.More(v, v.root), h.(flushSnapshot := Some(v.root)), DoCapture(s))
  {
    hide *;
    Unpack(names, v, h, s);
    RootIsHeld(v, h);
    Captures(s);
    var w, u := R.More(v, v.root), h.(flushSnapshot := Some(v.root));
    HoldsFrameMore(names, v, v.root, h, s);
    PersisterTakes(names, v, h, s.flush, DoCapture(s).flush);
    FrameFlush(names, w, h, u, s);
    Pack(names, w, u, DoCapture(s));
  }

  lemma {:induction false} Captures(s: State)
    ensures
      var t := DoCapture(s);
      && t.root == s.root && t.batches == s.batches && t.merger == s.merger && t.readers == s.readers
      && t.flush.Flushing? && t.flush.phase.Captured? && t.flush.snapshot == s.root
  {
  }

  lemma {:induction false} PersisterTakes(names: map<nat, Name>, v: R.Accounts, h: Held, f: Flush, now: Flush)
    requires HoldsOk(v, h) && f.Idle? && FlushHolds(names, v, h, f) && FlushNamed(names, h, f)
    requires now.Flushing? && now.phase.Captured? && Holding(names, v, v.root, now.snapshot.segments)
    ensures
      var w, u := R.More(v, v.root), h.(flushSnapshot := Some(v.root));
      HoldsOk(w, u) && FlushHolds(names, w, u, now) && FlushNamed(names, u, now) && AllReopened(u, now)
  {
    hide StandFor, Named;
    var a, m, r := multiset{v.root}, OptHold(h.mergerSnapshot), OptHold(h.mergedRoot) + multiset(h.readers);
    assert a + m + multiset{} + r + a == a + m + a + r;
  }

  lemma {:induction false} FrameFlush(names: map<nat, Name>, v: R.Accounts, h: Held, u: Held, s: State)
    requires u == h.(flushSnapshot := u.flushSnapshot, mergedRoot := u.mergedRoot)
    ensures OwnersOk(v, h) == OwnersOk(v, u) && BatchesNamed(names, h, s.batches) == BatchesNamed(names, u, s.batches)
    ensures MergeNamed(names, h, s.merger) == MergeNamed(names, u, s.merger) && MergerHolds(names, v, h, s.merger) == MergerHolds(names, v, u, s.merger)
  {
    hide Holding, Named, Injective, WithData;
  }

  /** A flush ends: reopened segments that the root did not take, or the output of a merge that was
      not introduced, have been closed; the root that the merge made and the captured snapshot are
      given back. */
  ghost predicate Ending(names: map<nat, Name>, v: R.Accounts, h: Held, s: State) {
    && NamesOk(names, v.made) && Holding(names, v, v.root, s.root.segments) && OwnersOk(v, h) && HoldsOk(v, h)
    && BatchesNamed(names, h, s.batches) && MergeNamed(names, h, s.merger) && MergerHolds(names, v, h, s.merger)
    && |h.readers| == |s.readers|
  }

  lemma {:induction false} StartEnding(names: map<nat, Name>, v: R.Accounts, h: Held, s: State)
    requires Tied(names, v, h, s) && s.flush.Flushing?
    ensures Ending(names, v, h, s) && h.flushSnapshot.Some?
  {
    hide NamesOk, Holding, OwnersOk, HoldsOk, BatchesNamed, MergeNamed, MergerHolds;
  }

  lemma {:induction false} CloseOne(names: map<nat, Name>, v: R.Accounts, h: Held, u: Held, s: State, o: nat)
    requires Ending(names, v, h, s)
    requires (h.flushSegment == Some(o) && u == h.(flushSegment := None))
          || (exists id :: id in h.reopened && h.reopened[id] == o && u == h.(reopened := h.reopened - {id}))
    ensures v.owned[o] > 0 && Ending(names, R.Dropped(v, o), u, s)
  {
    hide NamesOk, OwnersOk, HoldsOk, BatchesNamed, MergeNamed, MergerHolds, Holding;
    OwnersApart(v, h);
    if h.flushSegment == Some(o) && u == h.(flushSegment := None) {
      WithoutOutput(h, u, o);
    } else {
      var id :| id in h.reopened && h.reopened[id] == o && u == h.(reopened := h.reopened - {id});
      WithoutReopened(h, u, id);
    }
    hide Apart, Owned;
    ClosedOwner(v, h, u, o);
    OwnedFrame(names, v, R.Dropped(v, o), h, s, s.root.segments);
    SameHeld(h, u);
    Frame(names, R.Dropped(v, o), h, u, s);
  }

  lemma {:induction false} CloseReopenedOne(names: map<nat, Name>, v: R.Accounts, h: Held, s: State, id: nat)
    requires Ending(names, v, h, s) && id in h.reopened
    ensures v.owned[h.reopened[id]] > 0 && Ending(names, R.Dropped(v, h.reopened[id]), h.(reopened := h.reopened - {id}), s)
  {
    hide Ending;
    CloseOne(names, v, h, h.(reopened := h.reopened - {id}), s, h.reopened[id]);
  }

  lemma {:induction false} CloseOutput(names: map<nat, Name>, v: R.Accounts, h: Held, s: State)
    requires Ending(names, v, h, s) && h.flushSegment.Some?
    ensures v.owned[h.flushSegment.value] > 0 && Ending(names, R.Dropped(v, h.flushSegment.value), h.(flushSegment := None), s)
  {
    hide Ending;
    CloseOne(names, v, h, h.(flushSegment := None), s, h.flushSegment.value);
  }

  lemma {:induction false} WithoutReopened(h: Held, t: Held, id: nat)
    requires Apart(h) && id in h.reopened && t == h.(reopened := h.reopened - {id})
    ensures h.reopened[id] in Owned(h) && Owned(t) == Owned(h) - {h.reopened[id]} && Apart(t)
  {
    WithoutKey(h.reopened, id);
    hide Injective;
  }

  lemma {:induction false} MergedRootGiven(v: R.Accounts, h: Held)
    requires HoldsOk(v, h) && h.mergedRoot.Some?
    ensures v.holds[h.mergedRoot.value] > (if h.mergedRoot.value == v.root then 1 else 0)
    ensures HoldsOk(R.Less(v, h.mergedRoot.value), h.(mergedRoot := None))
  {
    var a, b, c := OptHold(h.mergerSnapshot), OptHold(h.flushSnapshot), multiset(h.readers);
    var r := a + b + c;
    assert OptHold(h.mergedRoot) == multiset{h.mergedRoot.value} && OptHold(None) == multiset{};
    hide OptHold;
    GiveBack(v.holds, v.root, h.mergedRoot.value, r);
    assert multiset{v.root} + r == multiset{v.root} + a + b + multiset{} + c;
  }

  lemma {:induction false} GiveMergedRoot(names: map<nat, Name>, v: R.Accounts, h: Held, s: State)
    requires Ending(names, v, h, s) && h.mergedRoot.Some?
    ensures v.holds[h.mergedRoot.value] > (if h.mergedRoot.value == v.root then 1 else 0)
    ensures Ending(names, R.Less(v, h.mergedRoot.value), h.(mergedRoot := None), s)
  {
    hide NamesOk, OwnersOk, BatchesNamed, MergeNamed, MergerHolds, Holding, HoldsOk, OptHold;
    var w, u := R.Less(v, h.mergedRoot.value), h.(mergedRoot := None);
    MergedRootGiven(v, h);
    EndingFrame(names, v, w, h, s);
    FrameFlush(names, w, h, u, s);
  }

  lemma {:induction false} EndingFrame(names: map<nat, Name>, v: R.Accounts, w: R.Accounts, h: Held, s: State)
    requires w == v.(holds := w.holds) && Ending(names, v, h, s)
    ensures NamesOk(names, w.made) && Holding(names, w, w.root, s.root.segments) && OwnersOk(w, h) && MergerHolds(names, w, h, s.merger)
  {
    hide StandFor, Named, Apart, WithData;
  }

  lemma {:induction false} FlushSnapshotGiven(v: R.Accounts, h: Held)
    requires HoldsOk(v, h) && h.mergedRoot == None && h.flushSnapshot.Some?
    ensures v.holds[h.flushSnapshot.value] > (if h.flushSnapshot.value == v.root then 1 else 0)
    ensures HoldsOk(R.Less(v, h.flushSnapshot.value), h.(flushSnapshot := None))
  {
    var a, c := OptHold(h.mergerSnapshot), multiset(h.readers);
    assert OptHold(h.flushSnapshot) == multiset{h.flushSnapshot.value} && OptHold(None) == multiset{};
    hide OptHold;
    GiveBack(v.holds, v.root, h.flushSnapshot.value, a + c);
    assert multiset{v.root} + (a + c) == multiset{v.root} + a + multiset{} + multiset{} + c;
  }

  lemma {:induction false} EndTied(names: map<nat, Name>, v: R.Accounts, h: Held, s: State, t: State)
    requires Ending(names, v, h, s) && h.reopened == map[] && h.flushSegment == None && h.mergedRoot == None && h.flushSnapshot.Some?
    requires t.flush.Idle? && t.root == s.root && t.batches == s.batches && t.merger == s.merger && t.readers == s.readers
    ensures v.holds[h.flushSnapshot.value] > (if h.flushSnapshot.value == v.root then 1 else 0)
    ensures Tied(names, R.Less(v, h.flushSnapshot.value), h.(flushSnapshot := None), t)
  {
    hide NamesOk, OwnersOk, BatchesNamed, MergeNamed, MergerHolds, Holding, HoldsOk, OptHold;
    var w, u := R.Less(v, h.flushSnapshot.value), h.(flushSnapshot := None);
    FlushSnapshotGiven(v, h);
    EndingFrame(names, v, w, h, s);
    FrameFlush(names, w, h, u, s);
  }

  // ---- backups ----

  lemma {:induction false} OpenTied(names: map<nat, Name>, v: R.Accounts, h: Held, s: State, t: State)
    requires Tied(names, v, h, s) && t == s.(readers := t.readers) && |t.readers| == |s.readers| + 1
    ensures v.holds[v.root] > 0
    ensures Tied(names, R.More(v, v.root), h.(readers := h.readers + [v.root]), t)
  {
    hide *;
    Unpack(names, v, h, s);
    RootIsHeld(v, h);
    var w, u := R.More(v, v.root), h.(readers := h.readers + [v.root]);
    HoldsFrameMore(names, v, v.root, h, s);
    ReaderTakes(v, h);
    FrameReaders(names, w, h, u, s);
    Pack(names, w, u, t);
  }

  lemma {:induction false} ReaderTakes(v: R.Accounts, h: Held)
    requires HoldsOk(v, h)
    ensures HoldsOk(R.More(v, v.root), h.(readers := h.readers + [v.root]))
  {
    assert multiset(h.readers + [v.root]) == multiset(h.readers) + multiset{v.root};
  }

  lemma {:induction false} FrameReaders(names: map<nat, Name>, v: R.Accounts, h: Held, u: Held, s: State)
    requires u == h.(readers := u.readers)
    ensures OwnersOk(v, h) == OwnersOk(v, u) && BatchesNamed(names, h, s.batches) == BatchesNamed(names, u, s.batches)
    ensures MergeNamed(names, h, s.merger) == MergeNamed(names, u, s.merger) && MergerHolds(names, v, h, s.merger) == MergerHolds(names, v, u, s.merger)
    ensures FlushNamed(names, h, s.flush) == FlushNamed(names, u, s.flush) && FlushHolds(names, v, h, s.flush) == FlushHolds(names, v, u, s.flush)
    ensures AllReopened(h, s.flush) == AllReopened(u, s.flush)
  {
    hide Holding, Named, Injective, WithData;
  }

  lemma {:induction false} CloseTied(names: map<nat, Name>, v: R.Accounts, h: Held, s: State, t: State, i: nat)
    requires Tied(names, v, h, s) && t == s.(readers := t.readers) && i < |s.readers| == |t.readers| + 1
    ensures |h.readers| == |s.readers| && v.holds[h.readers[i]] > (if h.readers[i] == v.root then 1 else 0)
    ensures Tied(names, R.Less(v, h.readers[i]), h.(readers := h.readers[..i] + h.readers[i + 1..]), t)
  {
    hide *;
    Unpack(names, v, h, s);
    var w, u := R.Less(v, h.readers[i]), h.(readers := h.readers[..i] + h.readers[i + 1..]);
    HoldsFrameLess(names, v, h.readers[i], h, s);
    ReaderGives(v, h, i);
    FrameReaders(names, w, h, u, s);
    Pack(names, w, u, t);
  }

  lemma {:induction false} OneReaderLess(readers: seq<nat>, i: nat)
    requires i < |readers|
    ensures multiset(readers) == multiset(readers[..i] + readers[i + 1..]) + multiset{readers[i]}
  {
    assert readers == readers[..i] + [readers[i]] + readers[i + 1..];
  }

  lemma {:induction false} ReaderGives(v: R.Accounts, h: Held, i: nat)
    requires HoldsOk(v, h) && i < |h.readers|
    ensures v.holds[h.readers[i]] > (if h.readers[i] == v.root then 1 else 0)
    ensures HoldsOk(R.Less(v, h.readers[i]), h.(readers := h.readers[..i] + h.readers[i + 1..]))
  {
    hide OptHold;
    var left := h.readers[..i] + h.readers[i + 1..];
    OneReaderLess(h.readers, i);
    var r := OptHold(h.mergerSnapshot) + OptHold(h.flushSnapshot) + OptHold(h.mergedRoot) + multiset(left);
    GiveBack(v.holds, v.root, h.readers[i], r);
  }

  // ---- runs ----

  lemma {:induction false} StartTied(s: State, names: map<nat, Name>, v: R.Accounts, h: Held)
    requires s.batches == map[] && s.merger.NotMerging? && s.flush.Idle? && s.readers == []
    requires h == Held(map[], None, None, map[], None, None, None, [])
    requires
      var n := |s.root.segments|;
      && v == R.Accounts(n, [R.Upto(n)], 0, multiset{0}, multiset{})
      && names == map i | i in R.Upto(n) :: Name(s.root.segments[i].id, s.root.segments[i].file)
    ensures Tied(names, v, h, s)
  {
    var n := |s.root.segments|;
    forall o: nat
      ensures o in R.Upto(n) <==> o < n
    {
      if o < n {
        assert R.Upto(n)[o] == o;
      }
    }
    assert Owned(h) == {} && WithData(s.batches) == {};
    assert multiset(h.readers) == multiset{};
  }

  ghost predicate RestartFree(steps: seq<Step>) { forall i | 0 <= i < |steps| :: !Restarts(steps[i]) }

  /** The goroutines of one process and what they hold. */
  class Process {
    const counters: R.Counters
    var held: Held
    ghost var names: map<nat, Name>

    ghost predicate Valid(s: State)
      reads this, counters
    {
      counters.Valid() && Tied(names, counters.View(), held, s)
    }

    /** A process that has just opened the index. */
    constructor (s: State)
      requires s.batches == map[] && s.merger.NotMerging? && s.flush.Idle? && s.readers == []
      ensures Valid(s) && fresh(counters)
    {
      counters := new R.Counters(|s.root.segments|);
      held := Held(map[], None, None, map[], None, None, None, []);
      names := map i | i in R.Upto(|s.root.segments|) :: Name(s.root.segments[i].id, s.root.segments[i].file);
      new;
      StartTied(s, names, counters.View(), held);
    }

    lemma {:induction false} Parts(s: State)
      requires Valid(s)
      ensures counters.Valid() && Tied(names, counters.View(), held, s)
    {
    }

    lemma {:induction false} Whole(s: State)
      requires counters.Valid() && Tied(names, counters.View(), held, s)
      ensures Valid(s)
    {
    }

    method Prepare(s: State, batch: Batch, data: seq<Entry>, safe: bool, callback: bool)
      requires Valid(s) && IdsInv(s)
      modifies this, counters
      ensures Valid(DoPrepare(s, batch, data, safe, callback))
    {
      hide *;
      Parts(s);
      PrepareTied(names, counters.View(), held, s, batch, data, safe, callback);
      if |data| > 0 {
        var id := s.nextSegmentId + 1;
        var o := counters.NewSegment();
        names := names[o := Name(id, false)];
        held := held.(batchSegments := held.batchSegments[id := o]);
      }
      Whole(DoPrepare(s, batch, data, safe, callback));
    }

    method IntroduceBatch(s: State, id: nat)
      requires Valid(s) && id in s.batches && s.batches[id].next.id == id
      modifies this, counters
      ensures Valid(DoIntroduceBatch(s, id))
    {
      hide *;
      Parts(s);
      Unpack(names, counters.View(), held, s);
      counters.HasRoot();
      var o := if id in held.batchSegments then held.batchSegments[id] else 0;
      var parts := BatchParts(s.root.segments, counters.RootSegments(), s.batches[id].next, o);
      BatchTied(names, counters.View(), held, s, id, parts);
      var root := counters.Introduce(parts);
      held := held.(batchSegments := held.batchSegments - {id});
      Whole(DoIntroduceBatch(s, id));
    }

    method PlanMerges(s: State)
      requires Valid(s) && s.merger.NotMerging?
      modifies this, counters
      ensures Valid(s.(merger := Planned(s.root.segments, {})))
    {
      hide *;
      Parts(s);
      PlanTied(names, counters.View(), held, s);
      var root := counters.Root();
      counters.AddRef(root);
      held := held.(mergerSnapshot := Some(root));
      Whole(s.(merger := Planned(s.root.segments, {})));
    }

    method MergeFiles(s: State, inputs: seq<SegmentSnapshot>, task: SegmentMerge)
      requires Valid(s) && s.merger.Planned?
      modifies this, counters
      ensures Valid(DoMergeFiles(s, inputs, task))
    {
      hide *;
      Parts(s);
      MergeFilesTied(names, counters.View(), held, s, inputs, task);
      var o := counters.NewSegment();
      names := names[o := Name(s.nextSegmentId + 1, true)];
      held := held.(mergeSegment := Some(o));
      Whole(DoMergeFiles(s, inputs, task));
    }

    /** The introducer hands the new root to the merger, who gives it back at once. A skipped output
        is closed. */
    method IntroduceFileMerge(s: State)
      requires Valid(s) && s.merger.Merged? && s.merger.task.ids == [s.merger.out] && |s.merger.task.news| == 1
      modifies this, counters
      ensures Valid(DoIntroduceFileMerge(s))
    {
      hide *;
      Parts(s);
      Unpack(names, counters.View(), held, s);
      MergeOwner(names, held, s.merger);
      counters.HasRoot();
      var o, skipped := held.mergeSegment.value, Skipped(s.root.segments, s.merger.task);
      var parts := MergeParts(s.root.segments, counters.RootSegments(), s.merger.task, [o]);
      ghost var v := counters.View();
      FileMergeTied(names, v, held, s, parts);
      var root := counters.Introduce(parts);
      AfterTaskIs(v, parts, skipped, o);
      counters.Borrow();
      if skipped {
        counters.CloseOwned(o);
      }
      held := held.(mergeSegment := None);
      Whole(DoIntroduceFileMerge(s));
    }

    method FinishMerges(s: State, t: State)
      requires Valid(s) && s.merger.Planned? && t.merger.NotMerging?
      requires t.root == s.root && t.batches == s.batches && t.flush == s.flush && t.readers == s.readers
      modifies this, counters
      ensures Valid(t)
    {
      hide *;
      Parts(s);
      FinishTied(names, counters.View(), held, s, t);
      counters.DecRef(held.mergerSnapshot.value);
      held := held.(mergerSnapshot := None);
      Whole(t);
    }

    method FailMerge(s: State)
      requires Valid(s) && s.merger.Merged?
      modifies this, counters
      ensures Valid(s.(merger := NotMerging, ineligible := s.ineligible - {s.merger.out}))
    {
      hide *;
      Parts(s);
      FailMergeTied(names, counters.View(), held, s);
      counters.CloseOwned(held.mergeSegment.value);
      held := held.(mergeSegment := None);
      Whole(s.(merger := Planned(s.merger.snapshot, {})));
      FinishMerges(s.(merger := Planned(s.merger.snapshot, {})), s.(merger := NotMerging, ineligible := s.ineligible - {s.merger.out}));
    }

    method Capture(s: State)
      requires Valid(s) && s.flush.Idle?
      modifies this, counters
      ensures Valid(DoCapture(s))
    {
      hide *;
      Parts(s);
      CaptureTied(names, counters.View(), held, s);
      var root := counters.Root();
      counters.AddRef(root);
      held := held.(flushSnapshot := Some(root));
      Whole(DoCapture(s));
    }

    method MergeInMemory(s: State, task: SegmentMerge)
      requires Valid(s) && s.flush.Flushing? && s.flush.phase.Captured?
      modifies this, counters
      ensures Valid(DoMergeInMemory(s, task))
    {
      hide *;
      Parts(s);
      MergeInMemoryTied(names, counters.View(), held, s, task);
      var o := counters.NewSegment();
      names := names[o := Name(s.nextSegmentId + 1, true)];
      held := held.(flushSegment := Some(o));
      Whole(DoMergeInMemory(s, task));
    }

    method IntroduceMemoryMerge(s: State)
      requires Valid(s) && s.flush.Flushing? && s.flush.phase.MergedInMemory?
      requires s.flush.phase.task.ids == [s.flush.phase.out] && |s.flush.phase.task.news| == 1
      modifies this, counters
      ensures Valid(DoIntroduceMemoryMerge(s))
    {
      hide *;
      Parts(s);
      Unpack(names, counters.View(), held, s);
      FlushOwner(names, counters.View(), held, s.flush);
      counters.HasRoot();
      var o, skipped := held.flushSegment.value, Skipped(s.root.segments, s.flush.phase.task);
      var parts := MergeParts(s.root.segments, counters.RootSegments(), s.flush.phase.task, [o]);
      ghost var v := counters.View();
      MemoryMergeTied(names, v, held, s, parts);
      var root := counters.Introduce(parts);
      AfterTaskIs(v, parts, skipped, o);
      if skipped {
        counters.Borrow();
        counters.CloseOwned(o);
        held := held.(flushSegment := None);
      } else {
        counters.RootHeld();
        counters.AddRef(root);
        held := held.(flushSegment := None, mergedRoot := Some(root));
      }
      Whole(DoIntroduceMemoryMerge(s));
    }

    /** After the files are written, the new segments are opened one by one. */
    method WriteFiles(s: State, bytesWritten: string)
      requires Valid(s) && CanWriteFiles(s)
      modifies this, counters
      ensures Valid(DoWriteFiles(s, bytesWritten))
    {
      hide *;
      Parts(s);
      WriteTied(names, counters.View(), held, s, bytesWritten);
      var t := DoWriteFiles(s, bytesWritten);
      WrittenAdds(s, bytesWritten);
      var todo := t.flush.phase.added;
      while todo != {}
        invariant counters.Valid() && AlmostTied(names, counters.View(), held, t)
        invariant todo !! held.reopened.Keys && todo + held.reopened.Keys == Added(t.flush)
        decreases todo
      {
        var id :| id in todo;
        ReopenOne(names, counters.View(), held, t, id);
        var o := counters.NewSegment();
        names := names[o := Name(id, true)];
        held := held.(reopened := held.reopened[id := o]);
        todo := todo - {id};
      }
      NowTied(names, counters.View(), held, t);
      Whole(t);
    }

    method SwapIn(s: State)
      requires Valid(s) && s.root.Ok() && s.flush.Flushing? && s.flush.phase.Written? && s.flush.phase.added <= s.files.Keys
      modifies this, counters
      ensures Valid(DoSwapIn(s))
    {
      hide *;
      Parts(s);
      Unpack(names, counters.View(), held, s);
      counters.HasRoot();
      var parts := PersistParts(s.root.segments, counters.RootSegments(), held.reopened);
      SwapInTied(names, counters.View(), held, s, parts);
      var root := counters.Introduce(parts);
      held := held.(reopened := held.reopened - Ids(s.root.segments));
      Whole(DoSwapIn(s));
    }

    /** Segments that were reopened and not swapped into the root. */
    method CloseReopened(s: State)
      requires counters.Valid() && Ending(names, counters.View(), held, s)
      modifies this`held, counters
      ensures counters.Valid() && Ending(names, counters.View(), held, s)
      ensures held == old(held).(reopened := map[])
    {
      hide *;
      while held.reopened != map[]
        invariant counters.Valid() && Ending(names, counters.View(), held, s)
        invariant held == old(held).(reopened := held.reopened)
        decreases held.reopened.Keys
      {
        var id :| id in held.reopened;
        CloseReopenedOne(names, counters.View(), held, s, id);
        counters.CloseOwned(held.reopened[id]);
        held := held.(reopened := held.reopened - {id});
      }
    }

    /** The flush is over, with or without success. */
    method EndFlush(s: State, t: State)
      requires Valid(s) && s.flush.Flushing? && t.flush.Idle?
      requires t.root == s.root && t.batches == s.batches && t.merger == s.merger && t.readers == s.readers
      modifies this, counters
      ensures Valid(t)
    {
      hide *;
      Parts(s);
      StartEnding(names, counters.View(), held, s);
      CloseReopened(s);
      if held.flushSegment.Some? {
        CloseOutput(names, counters.View(), held, s);
        counters.CloseOwned(held.flushSegment.value);
        held := held.(flushSegment := None);
      }
      if held.mergedRoot.Some? {
        GiveMergedRoot(names, counters.View(), held, s);
        counters.DecRef(held.mergedRoot.value);
        held := held.(mergedRoot := None);
      }
      EndTied(names, counters.View(), held, s, t);
      counters.DecRef(held.flushSnapshot.value);
      held := held.(flushSnapshot := None);
      Whole(t);
    }

    method OpenBackup(s: State, t: State)
      requires Valid(s) && t == s.(readers := t.readers) && |t.readers| == |s.readers| + 1
      modifies this, counters
      ensures Valid(t)
    {
      hide *;
      Parts(s);
      OpenTied(names, counters.View(), held, s, t);
      var root := counters.Root();
      counters.AddRef(root);
      held := held.(readers := held.readers + [root]);
      Whole(t);
    }

    method CloseBackup(s: State, t: State, i: nat)
      requires Valid(s) && t == s.(readers := t.readers) && i < |s.readers| == |t.readers| + 1
      modifies this, counters
      ensures Valid(t)
    {
      hide *;
      Parts(s);
      CloseTied(names, counters.View(), held, s, t, i);
      counters.DecRef(held.readers[i]);
      held := held.(readers := held.readers[..i] + held.readers[i + 1..]);
      Whole(t);
    }

    /** Any step of a process. */
    method Perform(s: State, step: Step)
      requires Inv(s) && Enabled(s, step) && !Restarts(step) && Valid(s)
      modifies this, counters
      ensures Valid(Do(s, step))
    {
      hide *;
      match step {
        case Prepare(batch, data, safe, callback) => PrepareFacts(s, step); Prepare(s, batch, data, safe, callback);
        case IntroduceBatch(id) => BatchFacts(s, step); IntroduceBatch(s, id);
        case PlanMerges => PlanFacts(s, step); PlanMerges(s);
        case MergeFiles(inputs, task) => MergeFilesFacts(s, step); MergeFiles(s, inputs, task);
        case IntroduceFileMerge => FileMergeFacts(s, step); IntroduceFileMerge(s);
        case FinishMerges => FinishFacts(s, step); FinishMerges(s, s.(merger := NotMerging, ineligible := s.ineligible - s.merger.done));
        case FailMerge => FinishFacts(s, step); FailMerge(s);
        case Capture => CaptureFacts(s, step); Capture(s);
        case MergeInMemory(task) => MergeInMemoryFacts(s, step); MergeInMemory(s, task);
        case IntroduceMemoryMerge => MemoryMergeFacts(s, step); IntroduceMemoryMerge(s);
        case WriteFiles(bytesWritten) => WriteFacts(s, step); WriteFiles(s, bytesWritten);
        case SwapIn => SwapFacts(s, step); SwapIn(s);
        case Commit => EndFacts(s, step); EndFlush(s, DoCommit(s));
        case CommitUnnoticed => EndFacts(s, step); EndFlush(s, DoCommitUnnoticed(s));
        case FailFlush => EndFacts(s, step); EndFlush(s, DoFailFlush(s));
        case OpenBackup => BackupFacts(s, step); OpenBackup(s, s.(readers := s.readers + [Reader(Ids(s.root.segments), FileIds(s.root.segments))]));
        case CloseBackup(i) => BackupFacts(s, step); CloseBackup(s, s.(readers := s.readers[..i] + s.readers[i + 1..]), i);
        case MarkEligible(_) => SameFacts(s, step); Nothing(s, Do(s, step));
        case PurgeBolt(_) => SameFacts(s, step); Nothing(s, Do(s, step));
        case PurgeFiles => SameFacts(s, step); Nothing(s, Do(s, step));
        case CrashAndReopen => NoRestart(step); assert false;
        case RollbackAndReopen(_) => NoRestart(step); assert false;
      }
    }

    /** A step that takes and gives no reference. */
    lemma {:induction false} Nothing(s: State, t: State)
      requires Valid(s) && t.root.segments == s.root.segments && t.batches == s.batches && t.merger == s.merger
      requires t.flush == s.flush && |t.readers| == |s.readers|
      ensures Valid(t)
    {
      hide *;
      Parts(s);
      SameTied(names, counters.View(), held, s, t);
      Whole(t);
    }

    /** Any run of a process keeps the counts exact. */
    method Run(states: seq<State>, steps: seq<Step>)
      requires IsRun(states, steps) && RestartFree(steps) && Inv(states[0]) && Valid(states[0])
      modifies this, counters
      ensures Valid(states[|states| - 1])
    {
      hide *;
      RunLength(states, steps);
      for i := 0 to |steps|
        invariant Valid(states[i]) && Inv(states[i])
      {
        RunStep(states, steps, i);
        Perform(states[i], steps[i]);
      }
    }
  }

  lemma {:induction false} RunLength(states: seq<State>, steps: seq<Step>)
    requires IsRun(states, steps)
    ensures |states| == |steps| + 1
  {
  }

  lemma {:induction false} RunStep(states: seq<State>, steps: seq<Step>, i: nat)
    requires IsRun(states, steps) && RestartFree(steps) && i < |steps| && Inv(states[i])
    ensures |states| == |steps| + 1 && Enabled(states[i], steps[i]) && !Restarts(steps[i]) && states[i + 1] == Do(states[i], steps[i]) && Inv(states[i + 1])
  {
    hide Inv, Enabled, Do, PurgeSteps.PurgeIsSafe;
    assert Moves(states[i], steps[i], states[i + 1]);
    StepKeepsInv(states[i], steps[i]);
  }

  lemma {:induction false} PrepareFacts(s: State, step: Step)
    requires Inv(s) && Enabled(s, step) && step.Prepare?
    ensures IdsInv(s) && Do(s, step) == DoPrepare(s, step.batch, step.data, step.safe, step.callback)
  {
  }

  lemma {:induction false} BatchFacts(s: State, step: Step)
    requires Inv(s) && Enabled(s, step) && step.IntroduceBatch?
    ensures step.id in s.batches && s.batches[step.id].next.id == step.id && Do(s, step) == DoIntroduceBatch(s, step.id)
  {
    hide RootInv, IdsInv, MergerInv, FlushInv, BoltInv, FileInv, AckInv, DoIntroduceBatch;
  }

  lemma {:induction false} PlanFacts(s: State, step: Step)
    requires Enabled(s, step) && step.PlanMerges?
    ensures s.merger.NotMerging? && Do(s, step) == s.(merger := Planned(s.root.segments, {}))
  {
  }

  lemma {:induction false} MergeFilesFacts(s: State, step: Step)
    requires Enabled(s, step) && step.MergeFiles?
    ensures s.merger.Planned? && Do(s, step) == DoMergeFiles(s, step.inputs, step.task)
  {
    hide TaskFor, DoMergeFiles;
  }

  lemma {:induction false} FileMergeFacts(s: State, step: Step)
    requires Inv(s) && Enabled(s, step) && step.IntroduceFileMerge?
    ensures s.merger.Merged? && s.merger.task.ids == [s.merger.out] && |s.merger.task.news| == 1 && Do(s, step) == DoIntroduceFileMerge(s)
  {
    hide RootInv, IdsInv, BatchesInv, FlushInv, BoltInv, FileInv, AckInv, DoIntroduceFileMerge, Earlier, BuiltFrom;
  }

  lemma {:induction false} FinishFacts(s: State, step: Step)
    requires Enabled(s, step) && (step.FinishMerges? || step.FailMerge?)
    ensures if step.FinishMerges? then s.merger.Planned? && Do(s, step) == s.(merger := NotMerging, ineligible := s.ineligible - s.merger.done)
            else s.merger.Merged? && Do(s, step) == s.(merger := NotMerging, ineligible := s.ineligible - {s.merger.out})
  {
  }

  lemma {:induction false} CaptureFacts(s: State, step: Step)
    requires Enabled(s, step) && step.Capture?
    ensures s.flush.Idle? && Do(s, step) == DoCapture(s)
  {
  }

  lemma {:induction false} MergeInMemoryFacts(s: State, step: Step)
    requires Enabled(s, step) && step.MergeInMemory?
    ensures s.flush.Flushing? && s.flush.phase.Captured? && Do(s, step) == DoMergeInMemory(s, step.task)
  {
    hide TaskFor, DoMergeInMemory, MemorySegments;
  }

  lemma {:induction false} MemoryMergeFacts(s: State, step: Step)
    requires Inv(s) && Enabled(s, step) && step.IntroduceMemoryMerge?
    ensures s.flush.Flushing? && s.flush.phase.MergedInMemory?
    ensures s.flush.phase.task.ids == [s.flush.phase.out] && |s.flush.phase.task.news| == 1 && Do(s, step) == DoIntroduceMemoryMerge(s)
  {
    hide RootInv, IdsInv, BatchesInv, MergerInv, BoltInv, FileInv, AckInv, DoIntroduceMemoryMerge, SnapshotOk, BuiltFrom, MemorySegments;
  }

  lemma {:induction false} WriteFacts(s: State, step: Step)
    requires Enabled(s, step) && step.WriteFiles?
    ensures CanWriteFiles(s) && Do(s, step) == DoWriteFiles(s, step.bytesWritten)
  {
    hide DoWriteFiles;
  }

  lemma {:induction false} SwapFacts(s: State, step: Step)
    requires Inv(s) && Enabled(s, step) && step.SwapIn?
    ensures s.root.Ok() && s.flush.Flushing? && s.flush.phase.Written? && s.flush.phase.added <= s.files.Keys && Do(s, step) == DoSwapIn(s)
  {
    hide IdsInv, BatchesInv, MergerInv, BoltInv, FileInv, AckInv, DoSwapIn, SnapshotOk, Represents, SegmentsOk, Bound;
  }

  lemma {:induction false} EndFacts(s: State, step: Step)
    requires Enabled(s, step) && (step.Commit? || step.CommitUnnoticed? || step.FailFlush?)
    ensures s.flush.Flushing? && (step.FailFlush? || CanCommit(s))
    ensures
      var t := Do(s, step);
      && t == (if step.Commit? then DoCommit(s) else if step.CommitUnnoticed? then DoCommitUnnoticed(s) else DoFailFlush(s))
      && t.flush.Idle? && t.root == s.root && t.batches == s.batches && t.merger == s.merger && t.readers == s.readers
  {
    hide WriteEpoch;
  }

  lemma {:induction false} BackupFacts(s: State, step: Step)
    requires Enabled(s, step) && (step.OpenBackup? || step.CloseBackup?)
    ensures step.CloseBackup? ==> step.reader < |s.readers| == |Do(s, step).readers| + 1
    ensures step.OpenBackup? ==> |Do(s, step).readers| == |s.readers| + 1
    ensures Do(s, step) == s.(readers := Do(s, step).readers)
    ensures Do(s, step) == if step.OpenBackup? then s.(readers := s.readers + [Reader(Ids(s.root.segments), FileIds(s.root.segments))])
                           else s.(readers := s.readers[..step.reader] + s.readers[step.reader + 1..])
  {
  }

  lemma {:induction false} NoRestart(step: Step)
    requires !Restarts(step)
    ensures !step.CrashAndReopen? && !step.RollbackAndReopen?
  {
  }

  lemma {:induction false} SameFacts(s: State, step: Step)
    requires Enabled(s, step) && (step.MarkEligible? || step.PurgeBolt? || step.PurgeFiles?)
    ensures
      var t := Do(s, step);
      t.root.segments == s.root.segments && t.batches == s.batches && t.merger == s.merger && t.flush == s.flush && t.readers == s.readers
  {
    hide LeftInBolt, LeftEligible, Only, Needed;
  }

  // ---- what follows in every state of a run ----

  /** The snapshots that somebody works with. */
  ghost predicate HeldSnapshot(h: Held, root: nat, id: nat) {
    id == root || h.mergerSnapshot == Some(id) || h.flushSnapshot == Some(id) || h.mergedRoot == Some(id) || id in h.readers
  }

  lemma {:induction false} IsHeld(v: R.Accounts, h: Held, id: nat)
    requires HoldsOk(v, h)
    ensures v.holds[id] > 0 <==> HeldSnapshot(h, v.root, id)
  {
    assert id in h.readers <==> multiset(h.readers)[id] > 0;
  }

  /** Exactly the segments that somebody works with are open: those of the root, of the snapshots that
      the merger, the persister and backups hold, and those in flight. */
  lemma {:induction false} OpenIffUsed(p: Process, s: State, o: nat)
    requires p.Valid(s)
    ensures R.Count(p.counters.segmentRefs, o) > 0 <==>
              || o in Owned(p.held)
              || exists id: nat :: id < |p.counters.snapshots| && HeldSnapshot(p.held, p.counters.root, id) && o in p.counters.snapshots[id].segments
  {
    var v, h := p.counters.View(), p.held;
    assert v.owned == multiset(Owned(h)) && HoldsOk(v, h) && v.holds == p.counters.holds && v.owned == p.counters.owned;
    hide Tied, Owned, HoldsOk, HeldSnapshot, R.Exact, R.HoldsExact, R.MadeOnce, R.NoneBeyond;
    R.ClosedExactlyWhenUnused(p.counters, o);
    forall id: nat
      ensures p.counters.holds[id] > 0 <==> HeldSnapshot(h, v.root, id)
    {
      IsHeld(v, h, id);
    }
  }

  /** Every segment that was ever made is with its one owner, or was taken over by a root once, or
      was closed by its owner once. */
  lemma {:induction false} OwnedOnce(p: Process, s: State, o: nat)
    requires p.Valid(s) && o < p.counters.made
    ensures p.counters.taken[o] + p.counters.closed[o] == if o in Owned(p.held) then 0 else 1
  {
    assert p.counters.View().owned == multiset(Owned(p.held));
    assert p.counters.owned == p.counters.View().owned;
  }

  /** When nothing is in flight, exactly the root's segments are open: nothing leaks. */
  lemma {:induction false} NothingLeaks(p: Process, s: State, o: nat)
    requires p.Valid(s) && s.batches == map[] && s.merger.NotMerging? && s.flush.Idle? && s.readers == []
    ensures p.counters.root < |p.counters.snapshots|
    ensures R.Count(p.counters.segmentRefs, o) > 0 <==> o in p.counters.snapshots[p.counters.root].segments
  {
    p.counters.HasRoot();
    OpenIffUsed(p, s, o);
    NobodyElse(p.names, p.counters.View(), p.held, s);
  }

  lemma {:induction false} NobodyElse(names: map<nat, Name>, v: R.Accounts, h: Held, s: State)
    requires Tied(names, v, h, s) && s.batches == map[] && s.merger.NotMerging? && s.flush.Idle? && s.readers == []
    ensures Owned(h) == {} && forall id: nat :: HeldSnapshot(h, v.root, id) <==> id == v.root
  {
    assert h.batchSegments.Keys == {} && h.reopened.Keys == {};
    hide OwnersOk, HoldsOk, NamesOk, Holding;
  }

  lemma {:induction false} AfterTaskIs(v: R.Accounts, parts: seq<R.Part>, skipped: bool, o: nat)
    ensures AfterTask(v, parts, skipped, o) == if skipped then R.Dropped(R.Replace(v, parts), o) else R.Replace(v, parts)
  {
  }

  lemma {:induction false} WrittenAdds(s: State, bytesWritten: string)
    requires CanWriteFiles(s)
    ensures
      var t := DoWriteFiles(s, bytesWritten);
      t.flush.Flushing? && t.flush.phase.Written? && Added(t.flush) == t.flush.phase.added
  {
    hide PrepareRecord, NewFiles;
  }

  lemma {:induction false} NowTied(names: map<nat, Name>, v: R.Accounts, h: Held, s: State)
    requires AlmostTied(names, v, h, s) && h.reopened.Keys == Added(s.flush)
    ensures Tied(names, v, h, s)
  {
  }
}
