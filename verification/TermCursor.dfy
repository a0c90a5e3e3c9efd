/** The term-field reader of a snapshot: one iterator for each segment, read as one cursor over
    global document numbers. */
module TermCursor {
  import opened Options
  import opened Segments
  import opened Snapshots
  import opened Postings
  import opened Uvarint

  // ---- global and local numbers ----

  lemma {:induction false} OffsetNext(segments: seq<SegmentSnapshot>, i: nat)
    requires i < |segments|
    ensures Offsets(segments)[i] == TotalDocs(segments[..i])
    ensures TotalDocs(segments[..i + 1]) == TotalDocs(segments[..i]) + |segments[i].docs|
  {
    assert segments[..i + 1][..i] == segments[..i];
    var n := |segments| - 1;
    if i < n {
      OffsetNext(segments[..n], i);
      assert segments[..n][..i] == segments[..i];
    }
  }

  lemma {:induction false} OffsetsGrow(segments: seq<SegmentSnapshot>, i: nat, j: nat)
    requires i <= j <= |segments|
    ensures TotalDocs(segments[..i]) <= TotalDocs(segments[..j])
    ensures (forall k | 0 <= k < |segments| :: segments[k].docs != []) && i < j ==> TotalDocs(segments[..i]) < TotalDocs(segments[..j])
  {
    if i < j {
      OffsetNext(segments, j - 1);
      OffsetsGrow(segments, i, j - 1);
    }
  }

  /** The binary search for the segment of a global number: the last one that starts at or below. */
  method SegmentIndexAndLocalDocNumFromGlobal(offsets: seq<nat>, docNum: nat) returns (segmentIndex: nat, local: nat)
    requires |offsets| > 0 && offsets[0] == 0 && forall i, j | 0 <= i < j < |offsets| :: offsets[i] < offsets[j]
    ensures segmentIndex < |offsets| && local == docNum - offsets[segmentIndex]
    ensures segmentIndex + 1 < |offsets| ==> docNum < offsets[segmentIndex + 1]
  {
    var i, j := 0, |offsets|;
    while i < j
      invariant 0 <= i <= j <= |offsets|
      invariant forall k | 0 <= k < i :: offsets[k] <= docNum
      invariant forall k | j <= k < |offsets| :: offsets[k] > docNum
    {
      var h := (i + j) / 2;
      if offsets[h] > docNum {
        j := h;
      } else {
        i := h + 1;
      }
    }
    segmentIndex := i - 1;
    local := docNum - offsets[segmentIndex];
  }

  /** The global number of a local one. */
  function Global(segments: seq<SegmentSnapshot>, segmentIndex: nat, local: nat): nat
    requires segmentIndex < |segments|
  {
    Offsets(segments)[segmentIndex] + local
  }

  /** Every global number below the total is that of exactly one document of one segment. */
  lemma {:induction false} GlobalIsBijection(segments: seq<SegmentSnapshot>, docNum: nat) returns (i: nat, local: nat)
    requires docNum < TotalDocs(segments)
    ensures i < |segments| && local < |segments[i].docs| && Global(segments, i, local) == docNum
    ensures forall j, l: nat | 0 <= j < |segments| && l < |segments[j].docs| && Global(segments, j, l) == docNum :: j == i && l == local
  {
    i, local := Locate(segments, docNum);
    forall j, l: nat | 0 <= j < |segments| && l < |segments[j].docs| && Global(segments, j, l) == docNum
      ensures j == i && l == local
    {
      OffsetNext(segments, i);
      OffsetNext(segments, j);
      if j < i {
        OffsetsGrow(segments, j + 1, i);
      } else if i < j {
        OffsetsGrow(segments, i + 1, j);
      }
    }
  }

  lemma {:induction false} Locate(segments: seq<SegmentSnapshot>, docNum: nat) returns (i: nat, local: nat)
    requires docNum < TotalDocs(segments)
    ensures i < |segments| && local < |segments[i].docs| && Global(segments, i, local) == docNum
  {
    var n := |segments| - 1;
    if docNum < TotalDocs(segments[..n]) {
      i, local := Locate(segments[..n], docNum);
    } else {
      i, local := n, docNum - TotalDocs(segments[..n]);
    }
  }

  // ---- document ids ----

  /** The internal id of a document: its number as eight bytes, most significant first. */
  function DocNumberToBytes(docNum: nat): Bytes { BigEndian(docNum, 8) }

  function DocInternalToNumber(id: Bytes): Result<nat> {
    if |id| != 8 then Failure("wrong len for IndexInternalID") else Success(FromBytes(id))
  }

  /** Ids are read back and compare as the numbers do. */
  lemma {:induction false} IdsCompareAsNumbers(a: nat, b: nat)
    requires a < TWO_64 && b < TWO_64
    ensures DocInternalToNumber(DocNumberToBytes(a)) == Success(a)
    ensures LexLess(DocNumberToBytes(a), DocNumberToBytes(b)) <==> a < b
  {
    assert Power256(8) == TWO_64 by { EightBytes(); }
    BigEndianInverse(a, 8);
    if a < b {
      BigEndianOrder(a, b, 8);
    } else if b < a {
      BigEndianOrder(b, a, 8);
      LexAsymmetric(BigEndian(b, 8), BigEndian(a, 8));
    } else {
      LexIrreflexive(BigEndian(a, 8));
    }
  }

  lemma {:induction false} EightBytes()
    ensures Power256(8) == TWO_64
  {
    assert Power256(2) == 0x1_0000;
    assert Power256(4) == 0x1_0000_0000;
    assert Power256(6) == 0x1_0000_0000_0000;
  }

  // ---- the cursor ----

  /** Where the hits of each segment lie: ascending, and below the next segment's offset. */
  predicate Layout(offsets: seq<nat>, hits: seq<seq<nat>>) {
    && |offsets| == |hits| && (|offsets| > 0 ==> offsets[0] == 0)
    && (forall i, j | 0 <= i < j < |offsets| :: offsets[i] < offsets[j])
    && (forall k | 0 <= k < |hits| :: Ascends(hits[k]))
    && (forall k, l, i | 0 <= k < l < |hits| && 0 <= i < |hits[k]| :: offsets[k] + hits[k][i] < offsets[l])
  }

  /** All hits, by global number. */
  function All(offsets: seq<nat>, hits: seq<seq<nat>>): set<nat>
    requires |offsets| == |hits|
  {
    set k, i | 0 <= k < |hits| && 0 <= i < |hits[k]| :: offsets[k] + hits[k][i]
  }

  predicate LeastFrom(all: set<nat>, from: nat, r: Option<nat>) {
    match r
    case Some(n) => n in all && n >= from && forall m <- all :: m >= from ==> m >= n
    case None => forall m <- all :: m < from
  }

  /** No iterator has passed a hit at or above `floor`. */
  ghost predicate Lossless(offsets: seq<nat>, hits: seq<seq<nat>>, pos: seq<nat>, floor: nat) {
    && |offsets| == |hits| == |pos|
    && forall k, i | 0 <= k < |hits| && 0 <= i < |hits[k]| && i < pos[k] :: offsets[k] + hits[k][i] < floor
  }

  /** What is left from the current segment on is exactly the hits at or above `floor`. */
  ghost predicate Ready(offsets: seq<nat>, hits: seq<seq<nat>>, pos: seq<nat>, at: nat, floor: nat) {
    && Lossless(offsets, hits, pos, floor) && at <= |hits|
    && (forall k, i | 0 <= k < at && 0 <= i < |hits[k]| :: offsets[k] + hits[k][i] < floor)
    && (forall k, i | at <= k < |hits| && pos[k] <= i < |hits[k]| :: offsets[k] + hits[k][i] >= floor)
  }

  lemma {:induction false} FoundNext(offsets: seq<nat>, hits: seq<seq<nat>>, pos: seq<nat>, at: nat, floor: nat)
    requires Layout(offsets, hits) && Ready(offsets, hits, pos, at, floor) && at < |hits| && pos[at] < |hits[at]|
    ensures LeastFrom(All(offsets, hits), floor, Some(offsets[at] + hits[at][pos[at]]))
    ensures Ready(offsets, hits, pos[at := pos[at] + 1], at, offsets[at] + hits[at][pos[at]] + 1)
  {
    var r := offsets[at] + hits[at][pos[at]];
    forall k, i | 0 <= k < |hits| && 0 <= i < |hits[k]| && offsets[k] + hits[k][i] >= floor
      ensures offsets[k] + hits[k][i] >= r && k >= at && (k == at ==> i >= pos[at])
      ensures (k == at ==> i > pos[at]) ==> offsets[k] + hits[k][i] > r
    {
      if k > at {
        assert r < offsets[k];
      }
    }
    assert r >= floor;
  }

  lemma {:induction false} SkipSegment(offsets: seq<nat>, hits: seq<seq<nat>>, pos: seq<nat>, at: nat, floor: nat)
    requires Ready(offsets, hits, pos, at, floor) && at < |hits| && pos[at] >= |hits[at]|
    ensures Ready(offsets, hits, pos, at + 1, floor)
  {
  }

  lemma {:induction false} NoneLeft(offsets: seq<nat>, hits: seq<seq<nat>>, pos: seq<nat>, at: nat, floor: nat)
    requires Ready(offsets, hits, pos, at, floor) && at >= |hits|
    ensures LeastFrom(All(offsets, hits), floor, None)
  {
  }

  lemma {:induction false} SortedOffsets(offsets: seq<nat>, hits: seq<seq<nat>>)
    requires Layout(offsets, hits) && |offsets| > 0
    ensures offsets[0] == 0 && forall i, j | 0 <= i < j < |offsets| :: offsets[i] < offsets[j]
  {
  }

  /** Jumping to the segment of the target and advancing there. */
  lemma {:induction false} JumpAhead(offsets: seq<nat>, hits: seq<seq<nat>>, pos: seq<nat>, floor: nat, target: nat, at: nat, to: nat)
    requires Layout(offsets, hits) && Lossless(offsets, hits, pos, floor) && floor <= target
    requires at < |offsets| && offsets[at] <= target && (at + 1 < |offsets| ==> target < offsets[at + 1])
    requires pos[at] <= to <= |hits[at]|
    requires forall i | pos[at] <= i < to :: hits[at][i] < target - offsets[at]
    requires forall i | to <= i < |hits[at]| :: hits[at][i] >= target - offsets[at]
    ensures Ready(offsets, hits, pos[at := to], at, target)
  {
    forall k, i | at < k < |hits| && 0 <= i < |hits[k]|
      ensures offsets[k] + hits[k][i] >= target && i >= pos[k]
    {
      assert offsets[at + 1] <= offsets[k];
    }
    forall k, i | 0 <= k < at && 0 <= i < |hits[k]|
      ensures offsets[k] + hits[k][i] < target
    {
      assert offsets[k] + hits[k][i] < offsets[at];
    }
  }

  /** After a jump that let a smaller number through: it is what the cursor now stands behind. */
  lemma {:induction false} JumpShort(offsets: seq<nat>, hits: seq<seq<nat>>, pos: seq<nat>, floor: nat, target: nat, at: nat, to: nat)
    requires Layout(offsets, hits) && Lossless(offsets, hits, pos, floor) && floor <= target
    requires at < |offsets| && offsets[at] <= target && (at + 1 < |offsets| ==> target < offsets[at + 1])
    requires pos[at] <= to < |hits[at]| && hits[at][to] < target - offsets[at]
    ensures Ready(offsets, hits, pos[at := to + 1], at, offsets[at] + hits[at][to] + 1)
  {
    var r := offsets[at] + hits[at][to];
    forall k, i | at < k < |hits| && 0 <= i < |hits[k]|
      ensures offsets[k] + hits[k][i] > target && i >= pos[k]
    {
      assert offsets[at + 1] <= offsets[k];
    }
    forall k, i | 0 <= k < at && 0 <= i < |hits[k]|
      ensures offsets[k] + hits[k][i] < r
    {
      assert offsets[k] + hits[k][i] < offsets[at];
    }
  }

  lemma {:induction false} PluginAt(it: PostingsIterator, actual: seq<nat>, before: set<object>)
    requires it.hits == actual && it.pos == 0 && it.Valid() && it !in before
    ensures Plugin(it).Valid() && Plugin(it).Hits() == actual && Plugin(it).Passed() == 0 && Plugin(it).Object() == it
  {
  }

  /** One iterator exchanged for another that nobody uses. */
  lemma {:induction false} ReplaceOne(hits: seq<seq<nat>>, its: seq<SegmentIterator>, pos: seq<nat>, k: nat, it: PostingsIterator, actual: seq<nat>)
    requires IteratorsOf(hits, its, false) && StandAt(its, pos) && k < |hits| && pos == Zeros(|hits|) && it !in ObjectsOf(its)
    requires Plugin(it).Valid() && Plugin(it).Hits() == actual && Plugin(it).Passed() == 0 && Plugin(it).Object() == it
    ensures IteratorsOf(hits[k := actual], its[k := Plugin(it)], false) && StandAt(its[k := Plugin(it)], pos)
    ensures ObjectsOf(its[k := Plugin(it)]) <= ObjectsOf(its) + {it}
  {
    hide SegmentIterator.Valid, SegmentIterator.Object, SegmentIterator.Passed, SegmentIterator.Hits;
    var now := its[k := Plugin(it)];
    forall j | 0 <= j < |now| && j != k
      ensures now[j] in its && its[j].Object() in ObjectsOf(its)
    {
    }
  }

  function ObjectsOf(its: seq<SegmentIterator>): set<object> {
    set it | it in its :: it.Object()
  }

  /** One iterator for each segment, over its hits. A reader of a single term holds those of the
      plugin, one built for a whole query none of them. */
  ghost predicate IteratorsOf(hits: seq<seq<nat>>, its: seq<SegmentIterator>, unadorned: bool) {
    && |its| == |hits|
    && (forall k | 0 <= k < |its| :: its[k].Plugin? == !unadorned && its[k].Hits() == hits[k])
    && (forall j, k | 0 <= j < k < |its| :: its[j].Object() != its[k].Object())
  }

  /** How many hits each of them has passed. */
  ghost predicate StandAt(its: seq<SegmentIterator>, pos: seq<nat>)
    reads ObjectsOf(its)
  {
    && |its| == |pos|
    && (forall k | 0 <= k < |its| :: its[k] in its && its[k].Valid() && its[k].Passed() == pos[k])
  }

  lemma {:induction false} OneOf(hits: seq<seq<nat>>, pos: seq<nat>, its: seq<SegmentIterator>, unadorned: bool, k: nat)
    requires IteratorsOf(hits, its, unadorned) && StandAt(its, pos) && k < |its|
    ensures its[k].Valid() && its[k].Hits() == hits[k] && its[k].Object() in ObjectsOf(its)
    ensures its[k].Passed() == pos[k] <= |hits[k]| && its[k].Left() == hits[k][pos[k]..]
  {
    hide SegmentIterator.Valid, SegmentIterator.Object;
  }

  class TermFieldReader {
    const offsets: seq<nat>
    const unadorned: bool
    /** What the snapshot has for the term, segment by segment; nothing for a whole query. */
    const postings: seq<seq<nat>>
    /** The hits of the iterators. A conjunction may have narrowed those of a term. */
    ghost var hits: seq<seq<nat>>
    var iterators: seq<SegmentIterator>
    var segmentOffset: nat
    var curr: Option<nat>
    /** How many hits each iterator has passed. */
    ghost var pos: seq<nat>
    ghost var floor: nat

    function Objects(): set<object>
      reads this`iterators
    {
      ObjectsOf(iterators)
    }

    ghost predicate Shape()
      reads this`iterators, this`pos, this`hits, Objects()
    {
      && Layout(offsets, hits) && IteratorsOf(hits, iterators, unadorned) && StandAt(iterators, pos)
      && (!unadorned ==> Layout(offsets, postings))
    }

    ghost predicate Valid()
      reads this, Objects()
    {
      Shape() && Ready(offsets, hits, pos, segmentOffset, floor)
    }

    /** A reader of one term, with iterators of the plugin; `postings` are the numbers of the live
        documents that have it. */
    constructor (offsets: seq<nat>, postings: seq<seq<nat>>)
      requires Layout(offsets, postings)
      ensures Valid() && fresh(Objects()) && floor == 0 && curr == None
      ensures this.offsets == offsets && hits == this.postings == postings && pos == Zeros(|postings|) && !unadorned
    {
      hide *;
      this.offsets, unadorned, hits, this.postings := offsets, false, postings, postings;
      segmentOffset, curr, floor := 0, None, 0;
      iterators, pos := [], Zeros(|postings|);
      new;
      LayoutAscends(offsets, postings);
      StartReady(offsets, postings);
      var its := Iterators(postings);
      PluginIterators(its, postings);
      iterators := its;
      Apart();
      ObjectsAre();
      PartsAreValid();
    }

    /** A reader of a whole query, over the iterators that were built for it. */
    constructor Unadorned(offsets: seq<nat>, its: seq<SegmentIterator>, ghost hits: seq<seq<nat>>)
      requires Layout(offsets, hits) && IteratorsOf(hits, its, true) && StandAt(its, Zeros(|hits|))
      ensures Valid() && iterators == its && floor == 0 && curr == None && pos == Zeros(|hits|)
      ensures this.offsets == offsets && this.hits == hits && unadorned
    {
      hide *;
      Allocated(its);
      this.offsets, unadorned, this.hits, postings := offsets, true, hits, [];
      segmentOffset, curr, floor := 0, None, 0;
      iterators, pos := its, Zeros(|hits|);
      StartReady(offsets, hits);
      new;
      NotAmong(this, its);
      PartsAreValid();
    }

    lemma {:induction false} Lengths()
      requires Shape()
      ensures Layout(offsets, hits) && |iterators| == |hits| == |offsets| == |pos| && this !in Objects() && forall o | o in Objects() :: allocated(o)
    {
      Apart();
    }

    lemma {:induction false} Apart()
      ensures this !in Objects() && forall o | o in Objects() :: allocated(o)
    {
    }

    lemma {:induction false} IteratorAt(k: nat)
      requires Shape() && k < |iterators|
      ensures |iterators| == |hits| == |offsets| == |pos| && iterators[k].Plugin? == !unadorned
      ensures iterators[k].Valid() && iterators[k].Hits() == hits[k] && iterators[k].Object() in Objects() && this !in Objects()
      ensures iterators[k].Passed() == pos[k] <= |hits[k]| && iterators[k].Left() == hits[k][pos[k]..]
    {
      hide Layout, SegmentIterator.Object;
      Lengths();
      OneOf(hits, pos, iterators, unadorned, k);
    }

    lemma {:induction false} OthersApart(k: nat)
      requires Shape() && k < |iterators|
      ensures forall j | 0 <= j < |iterators| && j != k :: iterators[j].Object() != iterators[k].Object() && iterators[j].Object() != this
    {
      hide Layout, StandAt;
    }

    /** The next number of segment `k`. */
    method NextAt(k: nat) returns (r: Option<nat>)
      requires Shape() && k < |iterators|
      modifies this`pos, iterators[k].Object()
      ensures Shape()
      ensures if old(pos)[k] < |hits[k]| then r == Some(hits[k][old(pos)[k]]) && pos == old(pos)[k := old(pos)[k] + 1]
              else r == None && pos == old(pos)
    {
      hide Layout, SegmentIterator.Valid, SegmentIterator.Passed, SegmentIterator.Left, SegmentIterator.Hits, IteratorsOf;
      Lengths();
      IteratorAt(k);
      OthersApart(k);
      r := iterators[k].Next();
      if r.Some? {
        pos := pos[k := pos[k] + 1];
      }
    }

    /** Sends the iterator of segment `k` to a local number. */
    method AdvanceAt(k: nat, docNum: nat, ghost cut: nat) returns (r: Option<nat>)
      requires Shape() && k < |iterators| && cut == iterators[k].Cut(docNum)
      modifies this`pos, iterators[k].Object()
      ensures Shape()
      ensures r == Head(AtOrAfter(old(iterators[k].Left()), cut)) && |Tail(AtOrAfter(old(iterators[k].Left()), cut))| <= |hits[k]|
      ensures pos == old(pos)[k := |hits[k]| - |Tail(AtOrAfter(old(iterators[k].Left()), cut))|]
    {
      hide Layout, AtOrAfter, Tail, SegmentIterator.Valid, SegmentIterator.Passed, SegmentIterator.Left, SegmentIterator.Hits, IteratorsOf;
      Lengths();
      IteratorAt(k);
      OthersApart(k);
      r := iterators[k].Advance(docNum);
      pos := pos[k := iterators[k].Passed()];
    }

    /** The next hit of the current segment, or on to the next segment. */
    method Here() returns (r: Option<nat>)
      requires Valid() && segmentOffset < |iterators|
      modifies this, Objects()
      ensures Valid() && iterators == old(iterators) && hits == old(hits)
      ensures r.Some? ==> LeastFrom(All(offsets, hits), old(floor), r) && floor == r.value + 1 && curr == r
      ensures r.None? ==> floor == old(floor) && curr == old(curr) && segmentOffset == old(segmentOffset) + 1
    {
      hide *;
      ValidParts();
      IteratorAt(segmentOffset);
      ghost var before := pos;
      r := NextAt(segmentOffset);
      if r.Some? {
        FoundNext(offsets, hits, before, segmentOffset, floor);
        r := Some(offsets[segmentOffset] + r.value);
        curr, floor := r, r.value + 1;
        ShapeAndReady();
      } else {
        SkipSegment(offsets, hits, before, segmentOffset, floor);
        segmentOffset := segmentOffset + 1;
        ShapeAndReady();
      }
    }

    /** The next hit: the least one not passed yet. */
    method Next() returns (r: Option<nat>)
      requires Valid()
      modifies this, Objects()
      ensures Valid() && iterators == old(iterators) && hits == old(hits)
      ensures LeastFrom(All(offsets, hits), old(floor), r)
      ensures floor == (if r.Some? then r.value + 1 else old(floor))
      ensures curr == (if r.Some? then r else old(curr))
    {
      hide *;
      ValidParts();
      while segmentOffset < |iterators|
        invariant Valid() && iterators == old(iterators) && hits == old(hits) && floor == old(floor) && curr == old(curr)
        decreases |iterators| - segmentOffset
      {
        r := Here();
        if r.Some? {
          return;
        }
      }
      AllPassed();
      return None;
    }

    lemma {:induction false} AllPassed()
      requires Valid() && segmentOffset >= |iterators|
      ensures LeastFrom(All(offsets, hits), floor, None)
    {
      NoneLeft(offsets, hits, pos, segmentOffset, floor);
    }

    /** A conjunction gives the iterator of a segment a smaller bitmap, before anything was read. */
    method ReplaceActual(k: nat, actual: seq<nat>)
      requires Valid() && !unadorned && k < |iterators| && floor == 0 && curr == None && pos == Zeros(|hits|)
      requires Ascends(actual) && forall n <- actual :: n in hits[k]
      modifies this`iterators, this`hits, this`segmentOffset
      ensures Valid() && hits == old(hits)[k := actual] && pos == Zeros(|hits|)
      ensures fresh(Objects() - old(Objects()))
    {
      hide *;
      ValidParts();
      Narrower(k, actual);
      Apart();
      ObjectsAre();
      ghost var before := Objects();
      var it := new PostingsIterator(actual);
      PluginAt(it, actual, before);
      ReplaceOne(hits, iterators, pos, k, it, actual);
      NotAmong(this, iterators[k := Plugin(it)]);
      iterators, hits, segmentOffset := iterators[k := Plugin(it)], hits[k := actual], 0;
      StartReady(offsets, hits);
      ObjectsAre();
      PartsAreShape();
      PartsAreValid();
    }

    lemma {:induction false} Narrower(k: nat, actual: seq<nat>)
      requires Shape() && !unadorned && k < |iterators| && Ascends(actual) && (forall n <- actual :: n in hits[k])
      ensures k < |hits| && Layout(offsets, hits[k := actual]) && Layout(offsets, postings)
      ensures IteratorsOf(hits, iterators, false) && StandAt(iterators, pos)
    {
      Lengths();
      hide IteratorsOf, StandAt;
      NarrowerLayout(offsets, hits, k, actual);
    }

    /** Back to the start: a fresh reader in place of this one, with what the snapshot has for the term,
        or, when the reader stands for a whole query and could not be built anew, its own iterators reset. */
    method Restart()
      requires Shape()
      modifies this, Objects()
      ensures Shape() && pos == Zeros(|hits|) && hits == (if unadorned then old(hits) else postings)
      ensures |iterators| == |old(iterators)|
      ensures forall k | 0 <= k < |iterators| :: iterators[k].OverBitmap? == old(iterators)[k].OverBitmap?
      ensures fresh(Objects() - old(Objects()))
    {
      hide *;
      Lengths();
      if !unadorned {
        NoBitmaps();
        var its := Iterators(postings);
        PluginIterators(its, postings);
        hits, iterators, segmentOffset, curr, pos := postings, its, 0, None, Zeros(|postings|);
        PartsAreShape();
      } else {
        ResetAll();
      }
    }

    method ResetAll()
      requires Shape() && unadorned
      modifies this`pos, Objects()
      ensures Shape() && pos == Zeros(|hits|)
    {
      hide *;
      Lengths();
      for k := 0 to |iterators|
        invariant Shape() && |pos| == |hits|
        invariant forall l | 0 <= l < k :: pos[l] == 0
      {
        IteratorAt(k);
        ResetAt(k);
      }
      AllZero(pos, |hits|);
    }

    lemma {:induction false} NoBitmaps()
      requires Shape() && !unadorned
      ensures forall k | 0 <= k < |iterators| :: !iterators[k].OverBitmap?
      ensures Layout(offsets, postings) && |postings| == |hits| && forall k | 0 <= k < |postings| :: Ascends(postings[k])
    {
    }

    method ResetAt(k: nat)
      requires Shape() && unadorned && k < |iterators|
      modifies this`pos, iterators[k].Object()
      ensures Shape() && pos == old(pos)[k := 0]
    {
      hide Layout, SegmentIterator.Valid, SegmentIterator.Passed, SegmentIterator.Left, SegmentIterator.Hits, IteratorsOf;
      Lengths();
      IteratorAt(k);
      OthersApart(k);
      iterators[k].Reset();
      pos := pos[k := 0];
    }

    /** What has been passed counts again when the cursor goes back to the start first. */
    ghost predicate Reaches(target: nat)
      reads this
    {
      AllFit(offsets, hits, target, iterators, if curr.Some? && curr.value >= target then Zeros(|hits|) else pos)
    }

    predicate GoesBack(target: nat)
      reads this
    {
      curr.Some? && curr.value >= target
    }

    /** The least hit at or above the target, for targets not above the last hit returned, and for
        targets not below where the cursor stands; exactly when the segment's iterator can be sent
        there. Otherwise it is a hit below the target. A reader of a term that goes back has all hits of
        the term again. */
    method Advance(target: nat) returns (r: Option<nat>)
      requires Valid() && |offsets| > 0
      requires target >= floor || GoesBack(target)
      modifies this, Objects()
      ensures hits == if old(GoesBack(target)) && !unadorned then postings else old(hits)
      ensures Valid() && (LeastFrom(All(offsets, hits), target, r) <==> old(Reaches(target)))
      ensures !old(Reaches(target)) ==> r.Some? && r.value < target && r.value in All(offsets, hits)
      ensures floor == (if r.Some? then r.value + 1 else target)
      ensures fresh(Objects() - old(Objects()))
    {
      hide *;
      ValidParts();
      ghost var reaches := Reaches(target);
      BackIs(target);
      if curr.Some? && curr.value >= target {
        ghost var before, had := iterators, hits;
        ReachesBack(target);
        Restart();
        FitsAgain(target, before, had, reaches);
        floor := 0;
        Lengths();
        NonePassed(offsets, hits);
      } else {
        ReachesAhead(target);
      }
      r := Jump(target, reaches);
    }

    lemma {:induction false} ValidParts()
      requires Valid()
      ensures Shape() && Layout(offsets, hits) && Ready(offsets, hits, pos, segmentOffset, floor) && Lossless(offsets, hits, pos, floor)
      ensures this !in Objects()
      ensures |iterators| == |hits| == |offsets| == |pos|
    {
      hide Layout;
      Apart();
    }

    lemma {:induction false} ReachesBack(target: nat)
      requires Shape() && curr.Some? && curr.value >= target
      ensures Reaches(target) <==> AllFit(offsets, hits, target, iterators, Zeros(|hits|))
    {
    }

    lemma {:induction false} BackIs(target: nat)
      ensures GoesBack(target) <==> curr.Some? && curr.value >= target
    {
    }

    /** After going back the targets that can be reached are those that could be before. */
    lemma {:induction false} FitsAgain(target: nat, its: seq<SegmentIterator>, had: seq<seq<nat>>, reaches: bool)
      requires Shape() && pos == Zeros(|hits|) && |its| == |iterators| == |had| && (unadorned ==> had == hits)
      requires forall k | 0 <= k < |its| :: iterators[k].OverBitmap? == its[k].OverBitmap?
      requires reaches <==> AllFit(offsets, had, target, its, Zeros(|had|))
      ensures reaches <==> AllFit(offsets, hits, target, iterators, pos)
    {
      hide AllFit, SegmentIterator.Valid;
      Lengths();
      if unadorned {
        SameKindsFit(offsets, hits, target, its, iterators, pos);
      } else {
        NoBitmaps();
        PluginsFit(offsets, hits, target, iterators);
        PluginsFit(offsets, had, target, its);
      }
    }

    lemma {:induction false} ReachesAhead(target: nat)
      requires Shape() && !(curr.Some? && curr.value >= target)
      ensures Reaches(target) <==> AllFit(offsets, hits, target, iterators, pos)
    {
    }

    /** Straight to the segment that the target belongs to, and ahead in it. */
    method Jump(target: nat, ghost reaches: bool) returns (r: Option<nat>)
      requires Shape() && Lossless(offsets, hits, pos, floor) && floor <= target && |offsets| > 0
      requires reaches <==> AllFit(offsets, hits, target, iterators, pos)
      modifies this, Objects()
      ensures Valid() && iterators == old(iterators) && hits == old(hits) && (LeastFrom(All(offsets, hits), target, r) <==> reaches)
      ensures !reaches ==> r.Some? && r.value < target && r.value in All(offsets, hits)
      ensures floor == (if r.Some? then r.value + 1 else target)
    {
      hide *;
      Lengths();
      SortedOffsets(offsets, hits);
      var segIndex, ldocNum := SegmentIndexAndLocalDocNumFromGlobal(offsets, target);
      IteratorAt(segIndex);
      ghost var before, left, cut := pos, iterators[segIndex].Left(), iterators[segIndex].Cut(ldocNum);
      OneSegmentFits(target, segIndex);
      CutTarget(iterators[segIndex], ldocNum);
      Landed(offsets, hits, before, floor, target, segIndex, left, cut, reaches);
      LandsIs(offsets, hits, before[segIndex := |hits[segIndex]| - |Tail(AtOrAfter(left, cut))|], target, segIndex, Head(AtOrAfter(left, cut)), reaches);
      r := AdvanceAt(segIndex, ldocNum, cut);
      Lengths();
      segmentOffset := segIndex;
      if r.Some? {
        r := Some(offsets[segIndex] + r.value);
        curr, floor := r, r.value + 1;
        ShapeAndReady();
      } else {
        floor := target;
        ShapeAndReady();
        r := Next();
      }
    }

    lemma {:induction false} ObjectsAre()
      ensures Objects() == ObjectsOf(iterators)
    {
    }

    lemma {:induction false} PartsAreShape()
      requires Layout(offsets, hits) && IteratorsOf(hits, iterators, unadorned) && StandAt(iterators, pos)
      requires !unadorned ==> Layout(offsets, postings)
      ensures Shape() && Objects() == ObjectsOf(iterators)
    {
    }

    lemma {:induction false} PartsAreValid()
      requires Layout(offsets, hits) && IteratorsOf(hits, iterators, unadorned) && StandAt(iterators, pos)
      requires !unadorned ==> Layout(offsets, postings)
      requires Ready(offsets, hits, pos, segmentOffset, floor)
      ensures Valid()
    {
    }

    lemma {:induction false} ShapeAndReady()
      requires Shape() && Ready(offsets, hits, pos, segmentOffset, floor)
      ensures Valid()
    {
    }

    lemma {:induction false} OneSegmentFits(target: nat, k: nat)
      requires Shape() && k < |offsets| && offsets[k] <= target && (k + 1 < |offsets| ==> target < offsets[k + 1])
      ensures SegmentOf(offsets, target, k)
      ensures AllFit(offsets, hits, target, iterators, pos) <==> CanBeSent(iterators[k], hits[k][pos[k]..], target - offsets[k])
    {
      hide Layout, IteratorsOf, StandAt, CanBeSent;
      SortedOffsets(offsets, hits);
      Lengths();
      IteratorAt(k);
      hide Shape, SegmentOf, AllFit;
      OnlyOneFits(target, iterators, pos, k);
    }

    lemma {:induction false} OnlyOneFits(target: nat, its: seq<SegmentIterator>, from: seq<nat>, k: nat)
      requires |its| == |from| == |offsets| == |hits| && forall i, j | 0 <= i < j < |offsets| :: offsets[i] < offsets[j]
      requires k < |offsets| && offsets[k] <= target && (k + 1 < |offsets| ==> target < offsets[k + 1]) && from[k] <= |hits[k]|
      ensures SegmentOf(offsets, target, k)
      ensures AllFit(offsets, hits, target, its, from) <==> CanBeSent(its[k], hits[k][from[k]..], target - offsets[k])
    {
      hide CanBeSent;
      OneSegmentOf(offsets, target, k);
    }
  }

  lemma {:induction false} PluginIterators(its: seq<SegmentIterator>, postings: seq<seq<nat>>)
    requires PluginsOver(its, postings)
    ensures IteratorsOf(postings, its, false) && forall k | 0 <= k < |its| :: !its[k].OverBitmap?
  {
  }

  lemma {:induction false} StartReady(offsets: seq<nat>, hits: seq<seq<nat>>)
    requires Layout(offsets, hits)
    ensures Ready(offsets, hits, Zeros(|hits|), 0, 0)
  {
  }

  lemma {:induction false} AllZero(pos: seq<nat>, n: nat)
    requires |pos| == n && forall k | 0 <= k < n :: pos[k] == 0
    ensures pos == Zeros(n)
  {
  }

  lemma {:induction false} Allocated(its: seq<SegmentIterator>)
    ensures forall o | o in ObjectsOf(its) :: allocated(o)
  {
  }

  lemma {:induction false} NotAmong(reader: TermFieldReader, its: seq<SegmentIterator>)
    ensures reader !in ObjectsOf(its)
  {
  }

  function Zeros(n: nat): (r: seq<nat>)
    ensures |r| == n && forall i | 0 <= i < n :: r[i] == 0
  {
    seq(n, i => 0)
  }

  lemma {:induction false} NonePassed(offsets: seq<nat>, hits: seq<seq<nat>>)
    requires |offsets| == |hits|
    ensures Lossless(offsets, hits, Zeros(|hits|), 0)
  {
  }

  lemma {:induction false} LayoutAscends(offsets: seq<nat>, hits: seq<seq<nat>>)
    requires Layout(offsets, hits)
    ensures forall k | 0 <= k < |hits| :: Ascends(hits[k])
  {
  }

  /** The segment that a global number belongs to: the last one that starts at or below it. */
  predicate SegmentOf(offsets: seq<nat>, target: nat, k: nat) {
    k < |offsets| && offsets[k] <= target && (k + 1 < |offsets| ==> target < offsets[k + 1])
  }

  lemma {:induction false} OneSegmentOf(offsets: seq<nat>, target: nat, k: nat)
    requires SegmentOf(offsets, target, k) && forall i, j | 0 <= i < j < |offsets| :: offsets[i] < offsets[j]
    ensures forall j | 0 <= j < |offsets| && SegmentOf(offsets, target, j) :: j == k
  {
    forall j | 0 <= j < |offsets| && SegmentOf(offsets, target, j)
      ensures j == k
    {
      if j < k {
        EndsBefore(offsets, target, j, k);
      } else if k < j {
        EndsBefore(offsets, target, k, j);
      }
    }
  }

  lemma {:induction false} EndsBefore(offsets: seq<nat>, target: nat, j: nat, k: nat)
    requires SegmentOf(offsets, target, j) && j < k < |offsets| && forall i, j | 0 <= i < j < |offsets| :: offsets[i] < offsets[j]
    ensures !SegmentOf(offsets, target, k)
  {
    assert j + 1 < k ==> offsets[j + 1] < offsets[k];
  }

  /** Whether the iterator of the segment that the target belongs to can be sent to it: one over a
      bitmap sees only the low 32 bits of the local number. */
  ghost predicate AllFit(offsets: seq<nat>, hits: seq<seq<nat>>, target: nat, its: seq<SegmentIterator>, from: seq<nat>) {
    && |its| == |from| == |offsets| == |hits|
    && forall k | 0 <= k < |its| && SegmentOf(offsets, target, k) ::
         from[k] <= |hits[k]| && CanBeSent(its[k], hits[k][from[k]..], target - offsets[k])
  }

  /** Only iterators over bitmaps can fail to be sent. */
  lemma {:induction false} PluginsFit(offsets: seq<nat>, hits: seq<seq<nat>>, target: nat, its: seq<SegmentIterator>)
    requires |its| == |offsets| == |hits| && forall k | 0 <= k < |its| :: !its[k].OverBitmap?
    ensures AllFit(offsets, hits, target, its, Zeros(|hits|))
  {
  }

  lemma {:induction false} SameKindsFit(offsets: seq<nat>, hits: seq<seq<nat>>, target: nat, its: seq<SegmentIterator>,
                                        now: seq<SegmentIterator>, from: seq<nat>)
    requires |its| == |now| && forall k | 0 <= k < |now| :: now[k].OverBitmap? == its[k].OverBitmap?
    ensures AllFit(offsets, hits, target, its, from) <==> AllFit(offsets, hits, target, now, from)
  {
  }

  lemma {:induction false} NarrowerLayout(offsets: seq<nat>, hits: seq<seq<nat>>, k: nat, actual: seq<nat>)
    requires Layout(offsets, hits) && k < |hits| && Ascends(actual) && forall n <- actual :: n in hits[k]
    ensures Layout(offsets, hits[k := actual])
  {
    var now := hits[k := actual];
    forall j, l, i | 0 <= j < l < |now| && 0 <= i < |now[j]|
      ensures offsets[j] + now[j][i] < offsets[l]
    {
      if j == k {
        assert actual[i] in hits[k];
        var h :| 0 <= h < |hits[k]| && hits[k][h] == actual[i];
      } else {
        assert now[j] == hits[j];
      }
    }
  }

  predicate CanBeSent(it: SegmentIterator, left: seq<nat>, docNum: nat) {
    it.OverBitmap? ==> Fits(left, docNum)
  }

  lemma {:induction false} CutTarget(it: SegmentIterator, docNum: nat)
    requires it.Valid()
    ensures Ascends(it.Left())
    ensures CanBeSent(it, it.Left(), docNum) ==> AtOrAfter(it.Left(), it.Cut(docNum)) == AtOrAfter(it.Left(), docNum)
    ensures !CanBeSent(it, it.Left(), docNum) ==> AtOrAfter(it.Left(), it.Cut(docNum)) != [] && AtOrAfter(it.Left(), docNum) == []
  {
    it.HitsAscend();
    var from := it.Passed();
    assert it.Left() == it.Hits()[from..];
    if it.OverBitmap? {
      TruncatedTarget(it.Left(), docNum);
    }
  }

  /** What is left at or above a number, by its place. */
  lemma {:induction false} RestOf(all: seq<nat>, from: nat, cut: nat) returns (to: nat)
    requires from <= |all| && Ascends(all[from..])
    ensures from <= to <= |all| && (forall i | from <= i < to :: all[i] < cut) && (forall i | to <= i < |all| :: all[i] >= cut)
    ensures Head(AtOrAfter(all[from..], cut)) == if to < |all| then Some(all[to]) else None
    ensures |all| - |Tail(AtOrAfter(all[from..], cut))| == if to < |all| then to + 1 else to
  {
    var left := all[from..];
    AtOrAfterIs(left, cut);
    to := |all| - |AtOrAfter(left, cut)|;
    forall i | from <= i < |all|
      ensures all[i] == left[i - from]
    {
    }
  }

  /** Where sending the iterator of segment `k` to a number leaves the cursor. */
  lemma {:induction false} Landed(offsets: seq<nat>, hits: seq<seq<nat>>, pos: seq<nat>, floor: nat, target: nat, k: nat,
                                  left: seq<nat>, cut: nat, can: bool)
    requires Layout(offsets, hits) && Lossless(offsets, hits, pos, floor) && floor <= target && SegmentOf(offsets, target, k)
    requires pos[k] <= |hits[k]| && left == hits[k][pos[k]..] && Ascends(left)
    requires can ==> AtOrAfter(left, cut) == AtOrAfter(left, target - offsets[k])
    requires !can ==> AtOrAfter(left, cut) != [] && AtOrAfter(left, target - offsets[k]) == []
    ensures |Tail(AtOrAfter(left, cut))| <= |hits[k]|
    ensures LandsAt(offsets, hits, pos[k := |hits[k]| - |Tail(AtOrAfter(left, cut))|], target, k, Head(AtOrAfter(left, cut)), can)
  {
    hide LandsAt, Layout, Lossless, SegmentOf, AtOrAfter, Tail, Ascends;
    LayoutLengths(offsets, hits, pos, floor);
    SegmentStarts(offsets, target, k);
    var to := RestOf(hits[k], pos[k], cut);
    var fits := RestOf(hits[k], pos[k], target - offsets[k]);
    if can {
      LandedRight(offsets, hits, pos, floor, target, k, fits);
    } else {
      LandedShort(offsets, hits, pos, floor, target, k, to);
    }
  }

  /** What holds when the iterator of segment `k` has answered with a local number: everything left
      is ahead of it, and it is the least hit wanted just when the iterator could be sent there. */
  ghost predicate LandsAt(offsets: seq<nat>, hits: seq<seq<nat>>, pos: seq<nat>, target: nat, k: nat, r: Option<nat>, can: bool) {
    && |offsets| == |hits| && k < |offsets|
    && match r
       case None => can && Ready(offsets, hits, pos, k, target)
       case Some(n) =>
         && Ready(offsets, hits, pos, k, offsets[k] + n + 1) && offsets[k] + n in All(offsets, hits)
         && (can <==> LeastFrom(All(offsets, hits), target, Some(offsets[k] + n))) && (can <==> offsets[k] + n >= target)
  }

  lemma {:induction false} LandsIs(offsets: seq<nat>, hits: seq<seq<nat>>, pos: seq<nat>, target: nat, k: nat, r: Option<nat>, can: bool)
    requires LandsAt(offsets, hits, pos, target, k, r, can)
    ensures r.None? ==> can && Ready(offsets, hits, pos, k, target)
    ensures r.Some? ==> Ready(offsets, hits, pos, k, offsets[k] + r.value + 1) && offsets[k] + r.value in All(offsets, hits)
    ensures r.Some? ==> (can <==> LeastFrom(All(offsets, hits), target, Some(offsets[k] + r.value)))
    ensures r.Some? ==> (can <==> offsets[k] + r.value >= target)
  {
  }

  lemma {:induction false} LandedRight(offsets: seq<nat>, hits: seq<seq<nat>>, pos: seq<nat>, floor: nat, target: nat, k: nat, to: nat)
    requires Layout(offsets, hits) && Lossless(offsets, hits, pos, floor) && floor <= target && SegmentOf(offsets, target, k)
    requires pos[k] <= to <= |hits[k]|
    requires forall i | pos[k] <= i < to :: hits[k][i] < target - offsets[k]
    requires forall i | to <= i < |hits[k]| :: hits[k][i] >= target - offsets[k]
    ensures to == |hits[k]| ==> LandsAt(offsets, hits, pos[k := to], target, k, None, true)
    ensures to < |hits[k]| ==> LandsAt(offsets, hits, pos[k := to + 1], target, k, Some(hits[k][to]), true)
  {
    hide Ready, LeastFrom, All, Layout, Lossless;
    LayoutLengths(offsets, hits, pos, floor);
    JumpAhead(offsets, hits, pos, floor, target, k, to);
    if to < |hits[k]| {
      FoundNext(offsets, hits, pos[k := to], k, target);
      assert pos[k := to][k := to + 1] == pos[k := to + 1];
      FoundIsHit(offsets, hits, k, to);
    }
  }

  lemma {:induction false} LandedShort(offsets: seq<nat>, hits: seq<seq<nat>>, pos: seq<nat>, floor: nat, target: nat, k: nat, to: nat)
    requires Layout(offsets, hits) && Lossless(offsets, hits, pos, floor) && floor <= target && SegmentOf(offsets, target, k)
    requires pos[k] <= to < |hits[k]| && hits[k][to] < target - offsets[k]
    ensures LandsAt(offsets, hits, pos[k := to + 1], target, k, Some(hits[k][to]), false)
  {
    hide Ready, LeastFrom, All, Layout, Lossless;
    LayoutLengths(offsets, hits, pos, floor);
    JumpShort(offsets, hits, pos, floor, target, k, to);
    FoundIsHit(offsets, hits, k, to);
    BelowIsNotLeast(offsets, hits, target, offsets[k] + hits[k][to]);
  }

  lemma {:induction false} SegmentStarts(offsets: seq<nat>, target: nat, k: nat)
    requires SegmentOf(offsets, target, k)
    ensures k < |offsets| && offsets[k] <= target
  {
  }

  lemma {:induction false} LayoutLengths(offsets: seq<nat>, hits: seq<seq<nat>>, pos: seq<nat>, floor: nat)
    requires Layout(offsets, hits) && Lossless(offsets, hits, pos, floor)
    ensures |offsets| == |hits| == |pos|
  {
  }

  lemma {:induction false} BelowIsNotLeast(offsets: seq<nat>, hits: seq<seq<nat>>, target: nat, n: nat)
    requires |offsets| == |hits| && n < target
    ensures !LeastFrom(All(offsets, hits), target, Some(n))
  {
  }

  lemma {:induction false} FoundIsHit(offsets: seq<nat>, hits: seq<seq<nat>>, k: nat, i: nat)
    requires |offsets| == |hits| && k < |hits| && i < |hits[k]|
    ensures offsets[k] + hits[k][i] in All(offsets, hits)
  {
  }

  ghost predicate PluginsOver(its: seq<SegmentIterator>, postings: seq<seq<nat>>) {
    && |its| == |postings|
    && (forall k | 0 <= k < |its| :: its[k].Plugin? && its[k].Hits() == postings[k])
    && (forall j, k | 0 <= j < k < |its| :: its[j].Object() != its[k].Object())
  }

  method Iterators(postings: seq<seq<nat>>) returns (its: seq<SegmentIterator>)
    requires forall k | 0 <= k < |postings| :: Ascends(postings[k])
    ensures fresh(ObjectsOf(its)) && |its| == |postings|
    ensures StandAt(its, Zeros(|its|)) && PluginsOver(its, postings)
  {
    hide *;
    its := [];
    NoIterators(postings);
    for i := 0 to |postings|
      invariant fresh(ObjectsOf(its)) && |its| == i
      invariant StandAt(its, Zeros(i)) && PluginsOver(its, postings[..i])
    {
      its := OpenNext(its, postings, i);
    }
    AllOpen(its, postings);
  }

  method OpenNext(its: seq<SegmentIterator>, postings: seq<seq<nat>>, i: nat) returns (now: seq<SegmentIterator>)
    requires i < |postings| && |its| == i && Ascends(postings[i])
    requires StandAt(its, Zeros(i)) && PluginsOver(its, postings[..i])
    ensures fresh(ObjectsOf(now) - ObjectsOf(its)) && |now| == i + 1
    ensures StandAt(now, Zeros(i + 1)) && PluginsOver(now, postings[..i + 1])
  {
    hide *;
    Allocated(its);
    var it := new PostingsIterator(postings[i]);
    OneMore(its, it, postings, i);
    now := its + [Plugin(it)];
  }

  lemma {:induction false} AllOpen(its: seq<SegmentIterator>, postings: seq<seq<nat>>)
    requires PluginsOver(its, postings[..|postings|])
    ensures PluginsOver(its, postings)
  {
    assert postings[..|postings|] == postings;
  }

  lemma {:induction false} NoIterators(postings: seq<seq<nat>>)
    ensures StandAt([], Zeros(0)) && PluginsOver([], postings[..0]) && ObjectsOf([]) == {}
  {
  }

  lemma {:induction false} OneMore(its: seq<SegmentIterator>, it: PostingsIterator, postings: seq<seq<nat>>, i: nat)
    requires i < |postings| && StandAt(its, Zeros(i)) && PluginsOver(its, postings[..i])
    requires it.Valid() && it.hits == postings[i] && it.pos == 0 && it !in ObjectsOf(its)
    ensures StandAt(its + [Plugin(it)], Zeros(i + 1)) && PluginsOver(its + [Plugin(it)], postings[..i + 1])
    ensures ObjectsOf(its + [Plugin(it)]) == ObjectsOf(its) + {it}
  {
    hide *;
    PluginIs(it);
    OneMoreStands(its, Plugin(it), i);
    OneMorePlugin(its, Plugin(it), postings, i);
    OneMoreObject(its, Plugin(it));
  }

  lemma {:induction false} PluginIs(it: PostingsIterator)
    requires it.Valid() && it.pos == 0
    ensures Plugin(it).Valid() && Plugin(it).Passed() == 0 && Plugin(it).Hits() == it.hits && Plugin(it).Object() == it
  {
  }

  lemma {:induction false} OneMoreStands(its: seq<SegmentIterator>, it: SegmentIterator, i: nat)
    requires StandAt(its, Zeros(i)) && it.Valid() && it.Passed() == 0
    ensures StandAt(its + [it], Zeros(i + 1))
  {
    hide SegmentIterator.Valid, SegmentIterator.Passed, SegmentIterator.Object;
  }

  lemma {:induction false} OneMorePlugin(its: seq<SegmentIterator>, it: SegmentIterator, postings: seq<seq<nat>>, i: nat)
    requires i < |postings| && PluginsOver(its, postings[..i]) && it.Plugin? && it.Hits() == postings[i] && it.Object() !in ObjectsOf(its)
    ensures PluginsOver(its + [it], postings[..i + 1])
  {
    hide SegmentIterator.Hits, SegmentIterator.Object;
    forall k | 0 <= k < i
      ensures (its + [it])[k] == its[k] && its[k].Object() != it.Object() && postings[..i][k] == postings[..i + 1][k]
    {
      assert its[k] in its;
    }
  }

  lemma {:induction false} OneMoreObject(its: seq<SegmentIterator>, it: SegmentIterator)
    ensures ObjectsOf(its + [it]) == ObjectsOf(its) + {it.Object()}
  {
    hide SegmentIterator.Object;
  }
}
