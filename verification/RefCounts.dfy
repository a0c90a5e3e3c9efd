/** Reference counting of snapshots and segments. A snapshot holds one reference to each segment it
    lists until its own count drops to zero; a segment is closed when its count does. */
module RefCounts {
  /** A snapshot by the segment objects it lists. */
  datatype Snapshot = Snapshot(segments: seq<nat>, refs: nat)

  /** A part of a new snapshot: a segment kept from the root, or one whose reference is taken over
      from the batch, persist or merge that made it. */
  datatype Part = Keep(segment: nat) | Take(segment: nat)

  function Segments(parts: seq<Part>): (r: seq<nat>)
    ensures |r| == |parts| && forall i | 0 <= i < |r| :: r[i] == parts[i].segment
  {
    seq(|parts|, i requires 0 <= i < |parts| => parts[i].segment)
  }

  /** The segments taken over. */
  function Taken(parts: seq<Part>): multiset<nat> {
    if parts == [] then multiset{} else
      var last := parts[|parts| - 1];
      if last.Take? then Taken(parts[..|parts| - 1]) + multiset{last.segment} else Taken(parts[..|parts| - 1])
  }

  function ListedBy(s: Snapshot, segment: nat): nat {
    if s.refs > 0 then multiset(s.segments)[segment] else 0
  }

  /** How often the snapshots that are not released list a segment. */
  function Listings(snapshots: seq<Snapshot>, segment: nat): nat {
    if snapshots == [] then 0 else
      Listings(snapshots[..|snapshots| - 1], segment) + ListedBy(snapshots[|snapshots| - 1], segment)
  }

  lemma {:induction false} ListingsUpdate(snapshots: seq<Snapshot>, i: nat, s: Snapshot, segment: nat)
    requires i < |snapshots|
    ensures Listings(snapshots[i := s], segment) + ListedBy(snapshots[i], segment) == Listings(snapshots, segment) + ListedBy(s, segment)
  {
    var n := |snapshots| - 1;
    if i < n {
      ListingsUpdate(snapshots[..n], i, s, segment);
      assert snapshots[i := s][..n] == snapshots[..n][i := s];
    } else {
      assert snapshots[i := s][..n] == snapshots[..n];
    }
  }

  lemma {:induction false} ListedOnce(snapshots: seq<Snapshot>, i: nat, segment: nat)
    requires i < |snapshots|
    ensures Listings(snapshots, segment) >= ListedBy(snapshots[i], segment)
  {
    if i < |snapshots| - 1 {
      ListedOnce(snapshots[..|snapshots| - 1], i, segment);
    }
  }

  function Count(refs: map<nat, nat>, segment: nat): nat {
    if segment in refs then refs[segment] else 0
  }

  /** Counts are exact but for `extra` references that are about to be dropped. */
  ghost predicate Exact(refs: map<nat, nat>, snapshots: seq<Snapshot>, owned: multiset<nat>, extra: multiset<nat>) {
    forall segment: nat :: Count(refs, segment) == Listings(snapshots, segment) + owned[segment] + extra[segment]
  }

  /** The count of every snapshot is the number of references that somebody holds. */
  ghost predicate HoldsExact(snapshots: seq<Snapshot>, holds: multiset<nat>) {
    forall id: nat :: (id < |snapshots| ==> snapshots[id].refs == holds[id]) && (id >= |snapshots| ==> holds[id] == 0)
  }

  /** Every segment made so far is still with its owner, was taken over by a snapshot once, or was
      closed by its owner once. */
  ghost predicate MadeOnce(made: nat, owned: multiset<nat>, taken: multiset<nat>, closed: multiset<nat>) {
    forall segment: nat :: owned[segment] + taken[segment] + closed[segment] == if segment < made then 1 else 0
  }

  /** Nothing refers to a segment that does not exist yet. */
  ghost predicate NoneBeyond(refs: map<nat, nat>, made: nat) {
    forall segment: nat | segment >= made :: Count(refs, segment) == 0
  }

  /** What the counters stand for, without the counts: the segments each snapshot lists, the root, who
      holds snapshots, and the segments in flight. */
  datatype Accounts = Accounts(made: nat, lists: seq<seq<nat>>, root: nat, holds: multiset<nat>, owned: multiset<nat>)

  function Lists(snapshots: seq<Snapshot>): (r: seq<seq<nat>>)
    ensures |r| == |snapshots| && forall i | 0 <= i < |r| :: r[i] == snapshots[i].segments
  {
    seq(|snapshots|, i requires 0 <= i < |snapshots| => snapshots[i].segments)
  }

  ghost function Made(v: Accounts): Accounts { v.(made := v.made + 1, owned := v.owned + multiset{v.made}) }
  ghost function Dropped(v: Accounts, segment: nat): Accounts { v.(owned := v.owned - multiset{segment}) }
  ghost function More(v: Accounts, id: nat): Accounts { v.(holds := v.holds + multiset{id}) }
  ghost function Less(v: Accounts, id: nat): Accounts { v.(holds := v.holds - multiset{id}) }

  lemma {:induction false} MoreThenLess(v: Accounts, id: nat)
    requires v.holds[id] > 0
    ensures Less(More(v, id), id) == v && More(v, id).holds[id] > 1
  {
  }

  /** A new root, and the old one no longer held by the root pointer. */
  ghost function Replace(v: Accounts, parts: seq<Part>): Accounts {
    v.(lists := v.lists + [Segments(parts)], root := |v.lists|, holds := v.holds - multiset{v.root} + multiset{|v.lists|},
       owned := v.owned - Taken(parts))
  }

  /** The counters of segments and snapshots of an index. */
  class Counters {
    /** By segment object; a segment is closed when its count is zero. */
    var segmentRefs: map<nat, nat>
    var snapshots: seq<Snapshot>
    var root: nat
    /** How many segment objects exist so far. */
    var made: nat
    /** The references to snapshots that somebody holds: the root pointer, readers, goroutines. */
    ghost var holds: multiset<nat>
    /** References to segments not yet handed to a snapshot, those that were, and those given up. */
    ghost var owned: multiset<nat>
    ghost var taken: multiset<nat>
    ghost var closed: multiset<nat>

    /** A snapshot's count is the number of those who hold it; a segment's count is the number of
        unreleased snapshots that list it plus its owner in flight, plus `extra` references that a
        new snapshot is about to list or an old one to drop. */
    ghost predicate Counted(extra: multiset<nat>)
      reads this
    {
      && root < |snapshots| && holds[root] > 0
      && HoldsExact(snapshots, holds) && Exact(segmentRefs, snapshots, owned, extra)
      && MadeOnce(made, owned, taken, closed) && NoneBeyond(segmentRefs, made)
    }

    ghost predicate Valid()
      reads this
    {
      Counted(multiset{})
    }

    ghost function View(): Accounts
      reads this
    {
      Accounts(made, Lists(snapshots), root, holds, owned)
    }

    function RootSegments(): (r: seq<nat>)
      requires root < |snapshots|
      reads this
      ensures View().root < |View().lists| && r == View().lists[View().root]
    {
      snapshots[root].segments
    }

    lemma {:induction false} HasRoot()
      requires Valid()
      ensures root < |snapshots|
    {
    }

    /** An index opened at a snapshot: its segments are open, with one reference each. */
    constructor (segments: nat)
      ensures Valid() && View() == Accounts(segments, [Upto(segments)], 0, multiset{0}, multiset{})
    {
      segmentRefs, snapshots, root, made := map i | i in Upto(segments) :: 1, [Snapshot(Upto(segments), 1)], 0, segments;
      holds, owned, closed := multiset{0}, multiset{}, multiset{};
      taken := multiset(Upto(segments));
      UptoCounts(segments);
    }

    lemma {:induction false} Parts(extra: multiset<nat>)
      requires Counted(extra)
      ensures root < |snapshots| && holds[root] > 0 && snapshots[root].refs > 0
      ensures HoldsExact(snapshots, holds) && Exact(segmentRefs, snapshots, owned, extra)
      ensures MadeOnce(made, owned, taken, closed) && NoneBeyond(segmentRefs, made)
    {
      hide Exact, MadeOnce, NoneBeyond;
    }

    lemma {:induction false} Whole(extra: multiset<nat>)
      requires root < |snapshots| && holds[root] > 0
      requires HoldsExact(snapshots, holds) && Exact(segmentRefs, snapshots, owned, extra)
      requires MadeOnce(made, owned, taken, closed) && NoneBeyond(segmentRefs, made)
      ensures Counted(extra)
    {
    }

    lemma {:induction false} ValidIsCounted()
      ensures Valid() <==> Counted(multiset{})
    {
    }

    /** A segment made by the plugin comes with one reference. */
    method NewSegment() returns (segment: nat)
      requires Valid()
      modifies this
      ensures Valid() && segment == old(View()).made && View() == Made(old(View()))
      ensures taken == old(taken) && closed == old(closed)
    {
      hide Exact, HoldsExact, MadeOnce, NoneBeyond, Counted, Valid, Taken, KeptFrom, Segments, Listings;
      ValidIsCounted();
      Parts(multiset{});
      segment := made;
      OneMade(segmentRefs, snapshots, made, owned, taken, closed);
      segmentRefs := segmentRefs[segment := 1];
      owned := owned + multiset{segment};
      made := made + 1;
      Whole(multiset{});
      ValidIsCounted();
    }

    method SegmentAddRef(segment: nat)
      requires Count(segmentRefs, segment) > 0
      modifies this`segmentRefs
      ensures segmentRefs == old(segmentRefs)[segment := Count(old(segmentRefs), segment) + 1]
    {
      segmentRefs := segmentRefs[segment := segmentRefs[segment] + 1];
    }

    method SegmentDecRef(segment: nat)
      requires Count(segmentRefs, segment) > 0
      modifies this`segmentRefs
      ensures segmentRefs == old(segmentRefs)[segment := (Count(old(segmentRefs), segment) - 1) as nat]
    {
      segmentRefs := segmentRefs[segment := segmentRefs[segment] - 1];
    }

    /** An owner in flight gives up: a skipped merge, or a reopened segment that the root no longer
        lists. */
    method CloseOwned(segment: nat)
      requires Valid() && View().owned[segment] > 0
      modifies this
      ensures Valid() && View() == Dropped(old(View()), segment)
      ensures taken == old(taken) && closed == old(closed) + multiset{segment}
    {
      hide Exact, HoldsExact, MadeOnce, NoneBeyond, Counted, Valid, Taken, KeptFrom, Segments, Listings;
      ValidIsCounted();
      Parts(multiset{});
      OwnedDropped(segmentRefs, snapshots, made, owned, taken, closed, segment);
      SegmentDecRef(segment);
      owned, closed := owned - multiset{segment}, closed + multiset{segment};
      Whole(multiset{});
      ValidIsCounted();
    }

    /** Readers, the merger and the persister take the root under the lock. */
    method AddRef(id: nat)
      requires Valid() && View().holds[id] > 0
      modifies this`snapshots, this`holds
      ensures Valid() && View() == More(old(View()), id)
    {
      hide Exact, HoldsExact, MadeOnce, NoneBeyond, Counted, Valid, Taken, KeptFrom, Segments, Listings;
      ValidIsCounted();
      Parts(multiset{});
      OneMore(segmentRefs, snapshots, holds, owned, id);
      snapshots := snapshots[id := snapshots[id].(refs := snapshots[id].refs + 1)];
      holds := holds + multiset{id};
      Whole(multiset{});
      ValidIsCounted();
    }

    /** Giving back a reference; the last one gives back those to the segments. */
    method DecRef(id: nat)
      requires Valid() && View().holds[id] > (if id == View().root then 1 else 0)
      modifies this`snapshots, this`holds, this`segmentRefs
      ensures Valid() && View() == Less(old(View()), id)
    {
      hide Exact, HoldsExact, MadeOnce, NoneBeyond, Counted, Valid, Taken, KeptFrom, Segments, Listings;
      ValidIsCounted();
      Parts(multiset{});
      OneFewer(snapshots, holds, id);
      var s := snapshots[id];
      Release(id);
      if s.refs == 1 {
        ReleaseSegments(s.segments);
      }
      ValidIsCounted();
    }

    /** One holder less; the segments of a snapshot without holders still wait to be given back. */
    method Release(id: nat)
      requires Counted(multiset{}) && id < |snapshots| && snapshots[id].refs > 0
      requires holds[id] > (if id == root then 1 else 0)
      modifies this`snapshots, this`holds
      ensures View() == Less(old(View()), id)
      ensures Counted(if old(snapshots[id].refs) == 1 then multiset(old(snapshots[id].segments)) else multiset{})
    {
      hide Exact, HoldsExact, MadeOnce, NoneBeyond, Counted, Valid, Taken, KeptFrom, Segments, Listings;
      Parts(multiset{});
      OneFewer(snapshots, holds, id);
      var s := snapshots[id];
      var now := s.(refs := s.refs - 1);
      ghost var extra := if now.refs == 0 then multiset(s.segments) else multiset{};
      ReleaseLeaves(segmentRefs, snapshots, id, now, owned, extra);
      StillHeld(holds, root, id);
      snapshots := snapshots[id := now];
      holds := holds - multiset{id};
      Whole(extra);
    }

    method ReleaseSegments(segments: seq<nat>)
      requires Counted(multiset(segments))
      modifies this`segmentRefs
      ensures Counted(multiset{})
    {
      hide Exact, HoldsExact, MadeOnce, NoneBeyond, Counted, Valid, Taken, KeptFrom, Segments, Listings;
      assert segments[0..] == segments;
      for i := 0 to |segments|
        invariant Counted(multiset(segments[i..]))
      {
        assert segments[i..] == [segments[i]] + segments[i + 1..];
        Parts(multiset(segments[i..]));
        OneDropped(segmentRefs, snapshots, owned, multiset(segments[i + 1..]), segments[i]);
        DroppedBelow(segmentRefs, made, segments[i]);
        SegmentDecRef(segments[i]);
        Whole(multiset(segments[i + 1..]));
      }
      assert segments[|segments|..] == [];
    }

    function Root(): (r: nat)
      reads this
      ensures r == View().root
    {
      root
    }

    lemma {:induction false} RootHeld()
      requires Valid()
      ensures View().holds[View().root] > 0
    {
    }

    /** Taking the new root and giving it back. */
    method Borrow()
      requires Valid()
      modifies this
      ensures Valid() && View() == old(View()) && taken == old(taken) && closed == old(closed)
    {
      hide Exact, HoldsExact, MadeOnce, NoneBeyond, Counted, Valid, Taken, KeptFrom, Segments, Listings, Counters.View;
      RootHeld();
      MoreThenLess(View(), Root());
      AddRef(Root());
      DecRef(Root());
    }

    /** Replaces the root. The old root is held while its segments are referenced again, and then
        given up; others may go on holding it. */
    method Introduce(parts: seq<Part>) returns (id: nat)
      requires Valid() && View().root < |View().lists|
      requires KeptFrom(View().lists[View().root], parts) && Taken(parts) <= View().owned
      modifies this
      ensures Valid() && id == View().root && View() == Replace(old(View()), parts)
      ensures taken == old(taken) + Taken(parts) && closed == old(closed)
    {
      hide Exact, HoldsExact, MadeOnce, NoneBeyond, Counted, Valid, Taken, KeptFrom, Segments, Listings;
      ValidIsCounted();
      Parts(multiset{});
      var rootPrev := root;
      TakeParts(parts);
      id := Publish(Segments(parts));
      DropOldRoot(rootPrev, old(holds));
    }

    method TakeParts(parts: seq<Part>)
      requires Valid() && KeptFrom(snapshots[root].segments, parts) && Taken(parts) <= owned
      modifies this`snapshots, this`holds, this`segmentRefs, this`owned, this`taken
      ensures Counted(multiset(Segments(parts))) && taken == old(taken) + Taken(parts)
      ensures View() == old(View()).(holds := old(holds) + multiset{root}, owned := old(owned) - Taken(parts))
    {
      hide Exact, HoldsExact, MadeOnce, NoneBeyond, Counted, Valid, Taken, KeptFrom, Segments, Listings;
      ValidIsCounted();
      Parts(multiset{});
      AddRef(root);
      ValidIsCounted();
      AddParts(parts);
    }

    /** The reference taken for the introduction and that of the root pointer. */
    method DropOldRoot(rootPrev: nat, ghost before: multiset<nat>)
      requires Valid() && rootPrev != root && before[rootPrev] > 0 && before[root] == 0
      requires holds == before + multiset{rootPrev} + multiset{root}
      modifies this`snapshots, this`holds, this`segmentRefs
      ensures Valid() && View() == old(View()).(holds := before - multiset{rootPrev} + multiset{root})
    {
      hide Exact, HoldsExact, MadeOnce, NoneBeyond, Counted, Valid, Taken, KeptFrom, Segments, Listings;
      SwapHold(before, rootPrev, root);
      DecRef(rootPrev);
      DecRef(rootPrev);
    }

    /** The new root is held by the root pointer; the old one still is too. */
    method Publish(segments: seq<nat>) returns (id: nat)
      requires Counted(multiset(segments))
      modifies this`snapshots, this`holds, this`root
      ensures Valid() && root == id == |old(snapshots)| && old(holds)[id] == 0
      ensures View() == old(View()).(lists := old(View()).lists + [segments], root := id, holds := old(holds) + multiset{id})
    {
      hide Exact, HoldsExact, MadeOnce, NoneBeyond, Counted, Valid, Taken, KeptFrom, Segments, Listings;
      id := |snapshots|;
      Parts(multiset(segments));
      NewHeld(snapshots, holds, segments);
      ListNew(segmentRefs, snapshots, segments, owned);
      snapshots := snapshots + [Snapshot(segments, 1)];
      holds := holds + multiset{id};
      root := id;
      Whole(multiset{});
      ValidIsCounted();
    }

    /** References for the new snapshot: added for kept segments, taken over for the others. */
    method AddParts(parts: seq<Part>)
      requires Counted(multiset{}) && Taken(parts) <= owned && KeptFrom(snapshots[root].segments, parts)
      modifies this`segmentRefs, this`owned, this`taken
      ensures Counted(multiset(Segments(parts)))
      ensures owned == old(owned) - Taken(parts) && taken == old(taken) + Taken(parts)
    {
      hide Exact, HoldsExact, MadeOnce, NoneBeyond, Counted, Valid, Taken, KeptFrom, Segments, Listings;
      NoParts(parts);
      for i := 0 to |parts|
        invariant Counted(multiset(Segments(parts[..i])))
        invariant owned == old(owned) - Taken(parts[..i]) && taken == old(taken) + Taken(parts[..i])
      {
        AddNextPart(parts, i, old(owned), old(taken));
      }
      assert parts[..|parts|] == parts;
    }

    method AddNextPart(parts: seq<Part>, i: nat, ghost owned0: multiset<nat>, ghost taken0: multiset<nat>)
      requires i < |parts| && Counted(multiset(Segments(parts[..i]))) && Taken(parts) <= owned0 && KeptFrom(snapshots[root].segments, parts)
      requires owned == owned0 - Taken(parts[..i]) && taken == taken0 + Taken(parts[..i])
      modifies this`segmentRefs, this`owned, this`taken
      ensures Counted(multiset(Segments(parts[..i + 1])))
      ensures owned == owned0 - Taken(parts[..i + 1]) && taken == taken0 + Taken(parts[..i + 1])
    {
      hide Exact, HoldsExact, MadeOnce, NoneBeyond, Counted, Valid, Taken, KeptFrom, Segments, Listings;
      Parts(multiset(Segments(parts[..i])));
      OnePart(parts, i);
      TakenGrows(parts, i + 1);
      MinusOne(owned0, Taken(parts[..i]), Taken(parts), parts[i].segment);
      KeptAt(snapshots[root].segments, parts, i);
      AddPart(parts[i], multiset(Segments(parts[..i])));
    }

    method AddPart(part: Part, ghost before: multiset<nat>)
      requires Counted(before)
      requires if part.Keep? then part.segment in snapshots[root].segments else owned[part.segment] > 0
      modifies this`segmentRefs, this`owned, this`taken
      ensures Counted(before + multiset{part.segment})
      ensures owned == if part.Keep? then old(owned) else old(owned) - multiset{part.segment}
      ensures taken == if part.Keep? then old(taken) else old(taken) + multiset{part.segment}
    {
      hide *;
      Parts(before);
      var segment := part.segment;
      if part.Keep? {
        HeldIsOpen(snapshots, root, segment);
        CountIsPositive(segmentRefs, snapshots, owned, before, segment);
        PartKept(segmentRefs, snapshots, owned, before, segment);
        KeptBelow(segmentRefs, made, segment);
        SegmentAddRef(segment);
      } else {
        PartTaken(segmentRefs, snapshots, owned, before, segment);
        TakenOver(made, owned, taken, closed, segment);
        owned, taken := owned - multiset{segment}, taken + multiset{segment};
      }
      Whole(before + multiset{segment});
    }
  }

  function Upto(n: nat): (r: seq<nat>)
    ensures |r| == n && forall i | 0 <= i < n :: r[i] == i
  {
    seq(n, i => i)
  }

  lemma {:induction false} UptoCounts(n: nat)
    ensures forall segment: nat :: multiset(Upto(n))[segment] == if segment < n then 1 else 0
    ensures forall segment: nat :: Listings([Snapshot(Upto(n), 1)], segment) == if segment < n then 1 else 0
  {
    if n > 0 {
      UptoCounts(n - 1);
      assert Upto(n) == Upto(n - 1) + [n - 1];
    }
    forall segment: nat
      ensures Listings([Snapshot(Upto(n), 1)], segment) == multiset(Upto(n))[segment]
    {
      assert [Snapshot(Upto(n), 1)][..0] == [];
    }
  }

  /** The parts that are kept are segments of the old root. */
  ghost predicate KeptFrom(segments: seq<nat>, parts: seq<Part>) {
    forall i | 0 <= i < |parts| && parts[i].Keep? :: parts[i].segment in segments
  }

  lemma {:induction false} KeptAt(segments: seq<nat>, parts: seq<Part>, i: nat)
    requires KeptFrom(segments, parts) && i < |parts|
    ensures parts[i].Keep? ==> parts[i].segment in segments
  {
  }

  lemma {:induction false} OneMade(refs: map<nat, nat>, snapshots: seq<Snapshot>, made: nat,
                                   owned: multiset<nat>, taken: multiset<nat>, closed: multiset<nat>)
    requires Exact(refs, snapshots, owned, multiset{}) && MadeOnce(made, owned, taken, closed) && NoneBeyond(refs, made)
    ensures Exact(refs[made := 1], snapshots, owned + multiset{made}, multiset{})
    ensures MadeOnce(made + 1, owned + multiset{made}, taken, closed) && NoneBeyond(refs[made := 1], made + 1)
  {
    assert Count(refs, made) == 0;
  }

  lemma {:induction false} OwnedDropped(refs: map<nat, nat>, snapshots: seq<Snapshot>, made: nat,
                                        owned: multiset<nat>, taken: multiset<nat>, closed: multiset<nat>, segment: nat)
    requires Exact(refs, snapshots, owned, multiset{}) && MadeOnce(made, owned, taken, closed) && NoneBeyond(refs, made)
    requires owned[segment] > 0
    ensures Count(refs, segment) > 0
    ensures Exact(refs[segment := (Count(refs, segment) - 1) as nat], snapshots, owned - multiset{segment}, multiset{})
    ensures MadeOnce(made, owned - multiset{segment}, taken, closed + multiset{segment})
    ensures NoneBeyond(refs[segment := (Count(refs, segment) - 1) as nat], made)
  {
    var now := refs[segment := (Count(refs, segment) - 1) as nat];
    forall k: nat | k >= made
      ensures Count(now, k) == 0
    {
      assert Count(refs, k) == 0;
    }
  }

  lemma {:induction false} TakenOver(made: nat, owned: multiset<nat>, taken: multiset<nat>, closed: multiset<nat>, segment: nat)
    requires MadeOnce(made, owned, taken, closed) && owned[segment] > 0
    ensures MadeOnce(made, owned - multiset{segment}, taken + multiset{segment}, closed)
  {
  }

  lemma {:induction false} DroppedBelow(refs: map<nat, nat>, made: nat, segment: nat)
    requires NoneBeyond(refs, made) && Count(refs, segment) > 0
    ensures NoneBeyond(refs[segment := (Count(refs, segment) - 1) as nat], made)
  {
    var now := refs[segment := (Count(refs, segment) - 1) as nat];
    forall k: nat | k >= made
      ensures Count(now, k) == 0
    {
      assert Count(refs, k) == 0;
    }
  }

  lemma {:induction false} KeptBelow(refs: map<nat, nat>, made: nat, segment: nat)
    requires NoneBeyond(refs, made) && Count(refs, segment) > 0
    ensures NoneBeyond(refs[segment := Count(refs, segment) + 1], made)
  {
    var now := refs[segment := Count(refs, segment) + 1];
    forall k: nat | k >= made
      ensures Count(now, k) == 0
    {
      assert Count(refs, k) == 0;
    }
  }

  lemma {:induction false} StillHeld(holds: multiset<nat>, root: nat, id: nat)
    requires holds[root] > 0 && holds[id] > (if id == root then 1 else 0)
    ensures (holds - multiset{id})[root] > 0
  {
  }

  lemma {:induction false} OneMore(refs: map<nat, nat>, snapshots: seq<Snapshot>, holds: multiset<nat>, owned: multiset<nat>, id: nat)
    requires HoldsExact(snapshots, holds) && Exact(refs, snapshots, owned, multiset{}) && holds[id] > 0
    ensures id < |snapshots|
    ensures HoldsExact(snapshots[id := snapshots[id].(refs := snapshots[id].refs + 1)], holds + multiset{id})
    ensures Exact(refs, snapshots[id := snapshots[id].(refs := snapshots[id].refs + 1)], owned, multiset{})
  {
    var now := snapshots[id].(refs := snapshots[id].refs + 1);
    forall segment: nat
      ensures Listings(snapshots[id := now], segment) == Listings(snapshots, segment)
    {
      ListingsUpdate(snapshots, id, now, segment);
    }
  }

  lemma {:induction false} OneDropped(refs: map<nat, nat>, snapshots: seq<Snapshot>, owned: multiset<nat>, rest: multiset<nat>, segment: nat)
    requires Exact(refs, snapshots, owned, multiset{segment} + rest)
    ensures Count(refs, segment) > 0
    ensures Exact(refs[segment := (Count(refs, segment) - 1) as nat], snapshots, owned, rest)
  {
  }

  lemma {:induction false} NoParts(parts: seq<Part>)
    ensures multiset(Segments(parts[..0])) == multiset{} && Taken(parts[..0]) == multiset{}
  {
  }

  lemma {:induction false} MinusOne(all: multiset<nat>, some: multiset<nat>, taken: multiset<nat>, x: nat)
    requires taken <= all
    ensures some + multiset{x} <= taken ==> (all - some)[x] > 0
    ensures (all - some) - multiset{x} == all - (some + multiset{x})
  {
    assert some + multiset{x} <= taken ==> taken[x] >= (some + multiset{x})[x];
  }

  lemma {:induction false} SwapHold(holds: multiset<nat>, before: nat, now: nat)
    requires holds[before] > 0 && before != now
    ensures (holds + multiset{before} + multiset{now})[before] > 1 && (holds + multiset{before} + multiset{now} - multiset{before})[before] > 0
    ensures holds + multiset{before} + multiset{now} - multiset{before} - multiset{before} == holds - multiset{before} + multiset{now}
  {
  }

  lemma {:induction false} OneFewer(snapshots: seq<Snapshot>, holds: multiset<nat>, id: nat)
    requires HoldsExact(snapshots, holds) && holds[id] > 0
    ensures id < |snapshots| && snapshots[id].refs > 0
    ensures HoldsExact(snapshots[id := snapshots[id].(refs := snapshots[id].refs - 1)], holds - multiset{id})
  {
  }

  lemma {:induction false} NewHeld(snapshots: seq<Snapshot>, holds: multiset<nat>, segments: seq<nat>)
    requires HoldsExact(snapshots, holds)
    ensures HoldsExact(snapshots + [Snapshot(segments, 1)], holds + multiset{|snapshots|})
    ensures holds[|snapshots|] == 0
  {
  }

  lemma {:induction false} OnePart(parts: seq<Part>, i: nat)
    requires i < |parts|
    ensures multiset(Segments(parts[..i + 1])) == multiset(Segments(parts[..i])) + multiset{parts[i].segment}
    ensures Taken(parts[..i + 1]) == if parts[i].Take? then Taken(parts[..i]) + multiset{parts[i].segment} else Taken(parts[..i])
  {
    assert parts[..i + 1][..i] == parts[..i];
    assert Segments(parts[..i + 1]) == Segments(parts[..i]) + [parts[i].segment];
  }

  lemma {:induction false} CountIsPositive(refs: map<nat, nat>, snapshots: seq<Snapshot>, owned: multiset<nat>, extra: multiset<nat>, segment: nat)
    requires Exact(refs, snapshots, owned, extra) && Listings(snapshots, segment) > 0
    ensures Count(refs, segment) > 0
  {
  }

  lemma {:induction false} PartKept(refs: map<nat, nat>, snapshots: seq<Snapshot>, owned: multiset<nat>, extra: multiset<nat>, segment: nat)
    requires Exact(refs, snapshots, owned, extra)
    ensures Exact(refs[segment := Count(refs, segment) + 1], snapshots, owned, extra + multiset{segment})
  {
  }

  lemma {:induction false} PartTaken(refs: map<nat, nat>, snapshots: seq<Snapshot>, owned: multiset<nat>, extra: multiset<nat>, segment: nat)
    requires Exact(refs, snapshots, owned, extra) && owned[segment] > 0
    ensures Exact(refs, snapshots, owned - multiset{segment}, extra + multiset{segment})
  {
  }

  lemma {:induction false} TakenGrows(parts: seq<Part>, n: nat)
    requires n <= |parts|
    ensures Taken(parts[..n]) <= Taken(parts)
  {
    if n < |parts| {
      assert parts[..|parts| - 1][..n] == parts[..n];
      TakenGrows(parts[..|parts| - 1], n);
    } else {
      assert parts[..n] == parts;
    }
  }

  /** Whoever holds a snapshot has all its segments open. */
  lemma {:induction false} HeldIsOpen(snapshots: seq<Snapshot>, id: nat, segment: nat)
    requires id < |snapshots| && snapshots[id].refs > 0 && segment in snapshots[id].segments
    ensures Listings(snapshots, segment) > 0
  {
    ListedOnce(snapshots, id, segment);
    assert multiset(snapshots[id].segments)[segment] > 0;
  }

  /** No segment is closed while a holder's snapshot lists it, and one that no unreleased snapshot
      lists and nobody owns is closed. */
  lemma {:induction false} ClosedExactlyWhenUnused(s: Counters, segment: nat)
    requires s.Valid()
    ensures Count(s.segmentRefs, segment) == 0 <==>
              s.owned[segment] == 0 && forall id: nat | id < |s.snapshots| && s.holds[id] > 0 :: segment !in s.snapshots[id].segments
  {
    if Count(s.segmentRefs, segment) == 0 {
      forall id: nat | id < |s.snapshots| && s.holds[id] > 0
        ensures segment !in s.snapshots[id].segments
      {
        ListedOnce(s.snapshots, id, segment);
        assert multiset(s.snapshots[id].segments)[segment] == 0;
      }
    }
    if forall id: nat | id < |s.snapshots| && s.holds[id] > 0 :: segment !in s.snapshots[id].segments {
      NotListed(s.snapshots, segment);
    }
  }

  lemma {:induction false} NotListed(snapshots: seq<Snapshot>, segment: nat)
    requires forall id | 0 <= id < |snapshots| && snapshots[id].refs > 0 :: segment !in snapshots[id].segments
    ensures Listings(snapshots, segment) == 0
  {
    if snapshots != [] {
      var n := |snapshots| - 1;
      assert forall id | 0 <= id < n :: snapshots[..n][id] == snapshots[id];
      NotListed(snapshots[..n], segment);
      assert snapshots[n].refs > 0 ==> multiset(snapshots[n].segments)[segment] == 0;
    }
  }

  lemma {:induction false} ReleaseLeaves(refs: map<nat, nat>, snapshots: seq<Snapshot>, id: nat, now: Snapshot,
                                         owned: multiset<nat>, extra: multiset<nat>)
    requires id < |snapshots| && snapshots[id].refs > 0 && now == snapshots[id].(refs := snapshots[id].refs - 1)
    requires Exact(refs, snapshots, owned, multiset{})
    requires extra == if now.refs == 0 then multiset(now.segments) else multiset{}
    ensures Exact(refs, snapshots[id := now], owned, extra)
  {
    forall segment: nat
      ensures Count(refs, segment) == Listings(snapshots[id := now], segment) + owned[segment] + extra[segment]
    {
      ListingsUpdate(snapshots, id, now, segment);
    }
  }

  lemma {:induction false} ListNew(refs: map<nat, nat>, snapshots: seq<Snapshot>, segments: seq<nat>, owned: multiset<nat>)
    requires Exact(refs, snapshots, owned, multiset(segments))
    ensures Exact(refs, snapshots + [Snapshot(segments, 1)], owned, multiset{})
  {
    var now := snapshots + [Snapshot(segments, 1)];
    assert now[..|snapshots|] == snapshots;
  }
}
