/** Readers opened on a snapshot: what a term matches, and finding a document by its id. */
module Lookup {
  import opened Options
  import opened Segments
  import opened Snapshots
  import opened IndexSpec
  import opened Postings
  import opened TermCursor
  import Unadorned

  /** The contract of a segment's postings list: the numbers of its live documents with the term,
      ascending. */
  function Hits(docs: seq<Entry>, deleted: set<nat>, has: Entry -> bool): seq<nat> {
    if docs == [] then [] else
      var n := |docs| - 1;
      if n !in deleted && has(docs[n]) then Hits(docs[..n], deleted, has) + [n] else Hits(docs[..n], deleted, has)
  }

  lemma {:induction false} AscendsSnoc(a: seq<nat>, n: nat)
    requires Ascends(a) && forall x: nat :: x in a ==> x < n
    ensures Ascends(a + [n])
  {
    forall i, j | 0 <= i < j < |a + [n]|
      ensures (a + [n])[i] < (a + [n])[j]
    {
      assert a[i] in a;
    }
  }

  lemma {:induction false} HitsAre(docs: seq<Entry>, deleted: set<nat>, has: Entry -> bool)
    ensures Ascends(Hits(docs, deleted, has))
    ensures forall d: nat :: d in Hits(docs, deleted, has) <==> d < |docs| && d !in deleted && has(docs[d])
  {
    if docs != [] {
      var n := |docs| - 1;
      HitsAre(docs[..n], deleted, has);
      var before := Hits(docs[..n], deleted, has);
      AscendsSnoc(before, n);
      hide Ascends;
      forall d: nat
        ensures d in Hits(docs, deleted, has) <==> d < |docs| && d !in deleted && has(docs[d])
      {
        assert d < n ==> docs[..n][d] == docs[d];
        assert d in before + [n] <==> d in before || d == n;
      }
    }
  }

  function AllHits(segments: seq<SegmentSnapshot>, has: Entry -> bool): (r: seq<seq<nat>>)
    ensures |r| == |segments|
    ensures forall k | 0 <= k < |r| :: r[k] == Hits(segments[k].docs, segments[k].deleted, has)
  {
    seq(|segments|, k requires 0 <= k < |segments| => Hits(segments[k].docs, segments[k].deleted, has))
  }

  predicate NoneEmpty(segments: seq<SegmentSnapshot>) {
    forall k | 0 <= k < |segments| :: segments[k].docs != []
  }

  lemma {:induction false} RootNotEmpty(root: IndexSnapshot)
    requires root.Ok()
    ensures NoneEmpty(root.segments) && root.offsets == Offsets(root.segments)
  {
  }

  /** The cursor's layout is that of any snapshot. */
  lemma {:induction false} SnapshotLayout(segments: seq<SegmentSnapshot>, has: Entry -> bool)
    requires NoneEmpty(segments)
    ensures Layout(Offsets(segments), AllHits(segments, has))
  {
    hide Hits, Offsets, TotalDocs;
    var offsets, hits := Offsets(segments), AllHits(segments, has);
    forall k | 0 <= k < |segments|
      ensures offsets[k] == TotalDocs(segments[..k]) && Ascends(hits[k])
    {
      OffsetNext(segments, k);
      HitsAre(segments[k].docs, segments[k].deleted, has);
    }
    forall i, j | 0 <= i < j < |offsets|
      ensures offsets[i] < offsets[j]
    {
      OffsetsGrow(segments, i, j);
    }
    forall k, l, i | 0 <= k < l < |hits| && 0 <= i < |hits[k]|
      ensures offsets[k] + hits[k][i] < offsets[l]
    {
      HitBelow(segments, has, k, l, i);
    }
    assert |segments| > 0 ==> offsets[0] == 0 by { NothingBefore(segments); }
  }

  lemma {:induction false} NothingBefore(segments: seq<SegmentSnapshot>)
    ensures TotalDocs(segments[..0]) == 0
  {
  }

  lemma {:induction false} HitBelow(segments: seq<SegmentSnapshot>, has: Entry -> bool, k: nat, l: nat, i: nat)
    requires k < l < |segments| && i < |AllHits(segments, has)[k]|
    ensures Offsets(segments)[k] + AllHits(segments, has)[k][i] < Offsets(segments)[l]
  {
    hide Hits, Offsets, TotalDocs;
    var hit := AllHits(segments, has)[k][i];
    HitsAre(segments[k].docs, segments[k].deleted, has);
    assert hit in Hits(segments[k].docs, segments[k].deleted, has);
    OffsetNext(segments, k);
    OffsetNext(segments, l);
    OffsetsGrow(segments, k + 1, l);
  }

  /** A live document with the term, by its place. */
  predicate Match(segments: seq<SegmentSnapshot>, has: Entry -> bool, k: nat, d: nat) {
    k < |segments| && d < |segments[k].docs| && d !in segments[k].deleted && has(segments[k].docs[d])
  }

  /** The hits are exactly the global numbers of the live documents with the term. */
  lemma {:induction false} HitsAreMatches(segments: seq<SegmentSnapshot>, has: Entry -> bool, g: nat)
    ensures g in All(Offsets(segments), AllHits(segments, has)) <==> exists k, d :: Match(segments, has, k, d) && Global(segments, k, d) == g
  {
    var offsets, hits := Offsets(segments), AllHits(segments, has);
    if g in All(offsets, hits) {
      var k, i :| 0 <= k < |hits| && 0 <= i < |hits[k]| && offsets[k] + hits[k][i] == g;
      HitsAre(segments[k].docs, segments[k].deleted, has);
      assert hits[k][i] in hits[k];
      assert Match(segments, has, k, hits[k][i]) && Global(segments, k, hits[k][i]) == g;
    }
    if k: nat, d: nat :| Match(segments, has, k, d) && Global(segments, k, d) == g {
      HitsAre(segments[k].docs, segments[k].deleted, has);
      assert d in hits[k];
      var i :| 0 <= i < |hits[k]| && hits[k][i] == d;
      assert offsets[k] + hits[k][i] == g;
    }
  }

  /** What has been read when the cursor stands at `floor`. */
  ghost predicate ReadUpTo(numbers: seq<nat>, all: set<nat>, floor: nat) {
    Ascends(numbers) && forall n: nat :: n in numbers <==> n in all && n < floor
  }

  ghost function NotRead(all: set<nat>, floor: nat): set<nat> { set n | n in all && n >= floor }

  lemma {:induction false} ReadOne(numbers: seq<nat>, all: set<nat>, floor: nat, next: Option<nat>)
    requires ReadUpTo(numbers, all, floor) && LeastFrom(all, floor, next)
    ensures next.None? ==> Ascends(numbers) && forall n: nat :: n in numbers <==> n in all
    ensures next.Some? ==> ReadUpTo(numbers + [next.value], all, next.value + 1) && NotRead(all, next.value + 1) < NotRead(all, floor)
  {
    if next.Some? {
      AscendsSnoc(numbers, next.value);
      assert next.value in NotRead(all, floor);
    }
  }

  /** Reading to the end: all hits, each once, in ascending order. */
  method Drain(reader: TermFieldReader) returns (numbers: seq<nat>)
    requires reader.Valid() && reader.floor == 0
    modifies reader, reader.Objects()
    ensures reader.Valid() && reader.hits == old(reader.hits)
    ensures Ascends(numbers) && forall n: nat :: n in numbers <==> n in All(reader.offsets, reader.hits)
  {
    hide TermFieldReader.Valid, TermFieldReader.Objects, All, LeastFrom;
    numbers := [];
    reader.ValidParts();
    ghost var all := All(reader.offsets, reader.hits);
    while true
      invariant reader.Valid() && reader.iterators == old(reader.iterators) && reader.hits == old(reader.hits)
      invariant ReadUpTo(numbers, all, reader.floor)
      decreases NotRead(all, reader.floor)
    {
      hide *;
      ghost var before := reader.floor;
      var next := reader.Next();
      ReadOne(numbers, all, before, next);
      if next.None? {
        return;
      }
      numbers := numbers + [next.value];
    }
  }

  // ---- readers of whole queries ----

  lemma {:induction false} LeastOf(s: set<nat>) returns (n: nat)
    requires s != {}
    ensures n in s && forall m <- s :: n <= m
  {
    n :| n in s;
    if s != {n} {
      var rest := s - {n};
      var m := LeastOf(rest);
      n := if m < n then m else n;
      assert forall k <- s :: k in rest || k == n || m <= k;
    }
  }

  /** A bitmap's iterator yields its numbers in ascending order. */
  method Ascending(numbers: set<nat>) returns (a: seq<nat>)
    ensures Ascends(a) && forall n: nat :: n in a <==> n in numbers
  {
    a := [];
    var left := numbers;
    while left != {}
      invariant Ascends(a) && left <= numbers && forall n: nat :: n in a <==> n in numbers && n !in left
      invariant forall n, m: nat | n in a && m in left :: n < m
      decreases left
    {
      ghost var least := LeastOf(left);
      var n :| n in left && forall m <- left :: n <= m;
      AscendsSnoc(a, n);
      a := a + [n];
      left := left - {n};
    }
  }

  /** The iterator that the reader of a query gets for one segment. */
  method OpenIterator(it: Unadorned.Iterator) returns (r: SegmentIterator)
    requires !it.Other? && forall n <- Unadorned.Docs(it) :: n < TWO_32
    ensures fresh(r.Object()) && !r.Plugin? && r.Valid() && r.Passed() == 0
    ensures Ascends(r.Hits()) && forall n: nat :: n in r.Hits() <==> n in Unadorned.Docs(it)
  {
    match it {
      case Empty =>
        var empty := new EmptyIterator();
        r := NoPostings(empty);
      case NoBitmap =>
        var empty := new EmptyIterator();
        r := NoPostings(empty);
      case OneHit(docNum) =>
        var hit := new OneHitIterator(docNum);
        r := OverOneHit(hit);
      case Actual(b) =>
        var numbers := b.numbers;
        assert forall n: nat | n in numbers :: n in Unadorned.Docs(it) && n < TWO_32;
        var a := Ascending(numbers);
        forall i | 0 <= i < |a|
          ensures a[i] < TWO_32
        {
          assert a[i] in a && a[i] in numbers;
        }
        var bitmap := new BitmapIterator(a);
        r := OverBitmap(bitmap);
    }
  }

  /** The numbers of every segment come before the next segment's. */
  ghost predicate Placed(offsets: seq<nat>, docs: seq<set<nat>>) {
    && |offsets| == |docs| && (|offsets| > 0 ==> offsets[0] == 0)
    && (forall i, j | 0 <= i < j < |offsets| :: offsets[i] < offsets[j])
    && (forall k, l, n | 0 <= k < l < |docs| && n in docs[k] :: offsets[k] + n < offsets[l])
  }

  ghost predicate Spread(docs: seq<set<nat>>, hits: seq<seq<nat>>) {
    && |hits| <= |docs|
    && forall k | 0 <= k < |hits| :: Ascends(hits[k]) && forall n: nat :: n in hits[k] <==> n in docs[k]
  }

  /** The reader of a conjunction or disjunction over the iterators built for its segments: its hits
      are exactly their numbers. */
  method OpenQuery(offsets: seq<nat>, its: seq<Unadorned.Iterator>, ghost docs: seq<set<nat>>) returns (reader: TermFieldReader)
    requires Placed(offsets, docs) && |its| == |docs|
    requires forall k | 0 <= k < |its| :: !its[k].Other? && docs[k] == Unadorned.Docs(its[k]) && forall n <- docs[k] :: n < TWO_32
    ensures fresh(reader) && fresh(reader.Objects()) && reader.Valid() && reader.floor == 0 && reader.curr == None
    ensures reader.offsets == offsets && reader.unadorned && |reader.hits| == |docs| && Spread(docs, reader.hits)
  {
    hide *;
    var open: seq<SegmentIterator> := [];
    ghost var hits: seq<seq<nat>> := [];
    NoneOpen(docs);
    for k := 0 to |its|
      invariant |open| == |hits| == k && fresh(ObjectsOf(open))
      invariant IteratorsOf(hits, open, true) && StandAt(open, Zeros(k)) && Spread(docs, hits)
    {
      Allocated(open);
      var it := OpenIterator(its[k]);
      OneMoreOpen(hits, open, it, k);
      OneMoreStands(open, it, k);
      OneMoreSpread(docs, hits, it.Hits());
      OneMoreObject(open, it);
      open, hits := open + [it], hits + [it.Hits()];
    }
    SpreadLayout(offsets, docs, hits);
    reader := new TermFieldReader.Unadorned(offsets, open, hits);
    reader.ObjectsAre();
  }

  lemma {:induction false} NoneOpen(docs: seq<set<nat>>)
    ensures IteratorsOf([], [], true) && StandAt([], Zeros(0)) && Spread(docs, []) && ObjectsOf([]) == {}
  {
  }

  lemma {:induction false} OneMoreOpen(hits: seq<seq<nat>>, its: seq<SegmentIterator>, it: SegmentIterator, k: nat)
    requires |hits| == k && IteratorsOf(hits, its, true) && !it.Plugin? && it.Object() !in ObjectsOf(its)
    ensures IteratorsOf(hits + [it.Hits()], its + [it], true)
  {
    hide SegmentIterator.Hits, SegmentIterator.Object;
    forall j | 0 <= j < k
      ensures (its + [it])[j] == its[j] && its[j].Object() != it.Object()
    {
      assert its[j] in its;
    }
  }

  lemma {:induction false} OneMoreSpread(docs: seq<set<nat>>, hits: seq<seq<nat>>, more: seq<nat>)
    requires Spread(docs, hits) && |hits| < |docs| && Ascends(more) && forall n: nat :: n in more <==> n in docs[|hits|]
    ensures Spread(docs, hits + [more])
  {
    hide Ascends;
  }

  lemma {:induction false} SpreadLayout(offsets: seq<nat>, docs: seq<set<nat>>, hits: seq<seq<nat>>)
    requires Placed(offsets, docs) && Spread(docs, hits) && |hits| == |docs|
    ensures Layout(offsets, hits)
  {
    hide Ascends;
    forall k, l, i | 0 <= k < l < |hits| && 0 <= i < |hits[k]|
      ensures offsets[k] + hits[k][i] < offsets[l]
    {
      assert hits[k][i] in hits[k];
    }
  }

  /** A target that belongs to a document of a snapshot, whose segments have at most 2^32 each, is
      always reached, whatever iterators the reader holds. */
  lemma {:induction false} DocumentsAreReached(segments: seq<SegmentSnapshot>, reader: TermFieldReader, target: nat)
    requires reader.Shape() && reader.offsets == Offsets(segments) && target < TotalDocs(segments)
    requires forall k | 0 <= k < |segments| :: |segments[k].docs| <= TWO_32
    ensures reader.Reaches(target)
  {
    hide Layout, SegmentIterator.Valid, IteratorsOf, StandAt, TotalDocs, Offsets;
    reader.Lengths();
    hide TermFieldReader.Shape;
    forall k | 0 <= k < |segments|
      ensures reader.pos[k] <= |reader.hits[k]|
      ensures SegmentOf(reader.offsets, target, k) ==> target - reader.offsets[k] < TWO_32
    {
      reader.IteratorAt(k);
      if SegmentOf(reader.offsets, target, k) {
        LocalIsSmall(segments, target, k);
      }
    }
  }

  lemma {:induction false} LocalIsSmall(segments: seq<SegmentSnapshot>, target: nat, k: nat)
    requires target < TotalDocs(segments) && SegmentOf(Offsets(segments), target, k)
    ensures k < |segments| && target - Offsets(segments)[k] < |segments[k].docs|
  {
    OffsetNext(segments, k);
    if k + 1 < |segments| {
      OffsetNext(segments, k + 1);
    } else {
      assert segments[..k + 1] == segments;
    }
  }

  /** Beyond 2^32 a reader over a bitmap goes back: from the target 2^32 the reader over the single
      number 5 returns 5. */
  method BeyondTheBitmap() returns (r: Option<nat>)
    ensures r == Some(5)
  {
    hide *;
    var bitmap := new BitmapIterator([5]);
    OnlyFive(bitmap);
    var reader := new TermFieldReader.Unadorned([0], [OverBitmap(bitmap)], [[5]]);
    FiveIsNotReached(reader, bitmap);
    r := reader.Advance(TWO_32);
  }

  /** A reader of a term whose hits 1, 2 and 3 a conjunction narrowed to 1 and 3: once it stands at 3, going
      back to 2 finds 2. */
  method OwnHitsAgain() returns (r: Option<nat>)
    ensures r == Some(2)
  {
    hide *;
    OneSegment([1, 2, 3]);
    var reader := new TermFieldReader([0], [[1, 2, 3]]);
    reader.ValidParts();
    OneOfThem(reader);
    reader.ReplaceActual(0, [1, 3]);
    HitsOfOne([[1, 2, 3]], [1, 3]);
    var first := reader.Next();
    LeastHit([1, 3], 0, first, 1);
    var second := reader.Next();
    LeastHit([1, 3], 2, second, 3);
    reader.ValidParts();
    PluginReaches(reader, 2);
    r := reader.Advance(2);
    LeastHit([1, 2, 3], 2, r, 2);
  }

  lemma {:induction false} OneSegment(hits: seq<nat>)
    requires hits == [1, 2, 3]
    ensures Layout([0], [hits]) && Ascends([1, 3]) && forall n <- [1, 3] :: n in hits
  {
    assert hits[0] == 1 && hits[2] == 3;
  }

  lemma {:induction false} OneOfThem(reader: TermFieldReader)
    requires |reader.iterators| == |reader.hits| == |reader.offsets| && reader.hits == [[1, 2, 3]]
    ensures 0 < |reader.iterators| && reader.hits[0] == [1, 2, 3]
  {
  }

  lemma {:induction false} HitsOfOne(before: seq<seq<nat>>, actual: seq<nat>)
    requires |before| == 1
    ensures before[0 := actual] == [actual]
  {
  }

  lemma {:induction false} LeastHit(hits: seq<nat>, from: nat, r: Option<nat>, n: nat)
    requires LeastFrom(All([0], [hits]), from, r) && n in hits && n >= from && forall m <- hits :: m < from || m >= n
    ensures r == Some(n)
  {
    var i :| 0 <= i < |hits| && hits[i] == n;
    assert [hits][0] == hits;
    assert 0 + [hits][0][i] in All([0], [hits]);
    if r.Some? {
      var k, j :| 0 <= k < |[hits]| && 0 <= j < |[hits][k]| && r.value == 0 + [hits][k][j];
      assert hits[j] in hits;
    }
  }

  /** A reader of a term reaches every target. */
  lemma {:induction false} PluginReaches(reader: TermFieldReader, target: nat)
    requires reader.Shape() && !reader.unadorned && reader.curr.Some? && reader.curr.value >= target
    ensures reader.Reaches(target) && reader.GoesBack(target)
  {
    reader.Lengths();
    reader.NoBitmaps();
    reader.ReachesBack(target);
    reader.BackIs(target);
    hide *;
    PluginsFit(reader.offsets, reader.hits, target, reader.iterators);
  }

  lemma {:induction false} OnlyFive(bitmap: BitmapIterator)
    requires bitmap.actualBM == bitmap.actual == [5]
    ensures Layout([0], [[5]]) && IteratorsOf([[5]], [OverBitmap(bitmap)], true) && StandAt([OverBitmap(bitmap)], Zeros(|[[5]]|))
  {
    var its := [OverBitmap(bitmap)];
    assert its[0].Valid() && its[0].Passed() == 0 && its[0].Hits() == [5];
  }

  lemma {:induction false} FiveIsNotReached(reader: TermFieldReader, bitmap: BitmapIterator)
    requires reader.curr == None && reader.offsets == [0] && reader.hits == [[5]] && reader.pos == Zeros(|[[5]]|)
    requires reader.iterators == [OverBitmap(bitmap)]
    ensures reader.Objects() == {bitmap} && !reader.Reaches(TWO_32) && forall n <- All([0], [[5]]) :: n == 5
  {
    assert SegmentOf(reader.offsets, TWO_32, 0);
    assert [5][0..] == [5];
    assert OverBitmap(bitmap) in reader.iterators && OverBitmap(bitmap).Object() == bitmap;
  }

  // ---- finding a document ----

  lemma {:induction false} LiveHas(docs: seq<Entry>, deleted: set<nat>, d: nat)
    requires d < |docs| && d !in deleted
    ensures Occurrences(Live(docs, deleted), docs[d]) >= 1
  {
    var n := |docs| - 1;
    if n !in deleted {
      OccurrencesConcat(Live(docs[..n], deleted), [docs[n]], docs[d]);
      OccurrencesAt([docs[n]], 0);
    }
    if d < n {
      LiveHas(docs[..n], deleted, d);
    }
  }

  lemma {:induction false} LiveFrom(docs: seq<Entry>, deleted: set<nat>, e: Entry) returns (d: nat)
    requires Occurrences(Live(docs, deleted), e) >= 1
    ensures d < |docs| && d !in deleted && docs[d] == e
  {
    assert docs != [];
    var n := |docs| - 1;
    if n !in deleted && docs[n] == e {
      d := n;
    } else {
      if n !in deleted {
        var l := Live(docs, deleted);
        assert l[..|l| - 1] == Live(docs[..n], deleted);
      }
      d := LiveFrom(docs[..n], deleted, e);
    }
  }

  lemma {:induction false} ListsLive(segments: seq<SegmentSnapshot>, k: nat, d: nat)
    requires k < |segments| && d < |segments[k].docs| && d !in segments[k].deleted
    ensures Occurrences(Contents(segments), segments[k].docs[d]) >= 1
  {
    var n := |segments| - 1;
    var e := segments[k].docs[d];
    OccurrencesConcat(Contents(segments[..n]), segments[n].Contents(), e);
    if k == n {
      LiveHas(segments[n].docs, segments[n].deleted, d);
    } else {
      ListsLive(segments[..n], k, d);
    }
  }

  lemma {:induction false} ListedFrom(segments: seq<SegmentSnapshot>, e: Entry) returns (k: nat, d: nat)
    requires Occurrences(Contents(segments), e) >= 1
    ensures k < |segments| && d < |segments[k].docs| && d !in segments[k].deleted && segments[k].docs[d] == e
  {
    assert segments != [];
    var n := |segments| - 1;
    OccurrencesConcat(Contents(segments[..n]), segments[n].Contents(), e);
    if Occurrences(segments[n].Contents(), e) >= 1 {
      d := LiveFrom(segments[n].docs, segments[n].deleted, e);
      k := n;
    } else {
      k, d := ListedFrom(segments[..n], e);
    }
  }

  /** Looking up an id in a snapshot that represents the map is looking it up in the map: the first
      posting of the id, turned back into a segment and a local number. */
  method Document(snapshot: IndexSnapshot, id: DocId, ghost index: Index) returns (doc: Option<Doc>)
    requires snapshot.Ok() && Holds(snapshot.segments, index.docs)
    ensures doc == if id in index.docs then Some(index.docs[id]) else None
  {
    hide *;
    var segments := snapshot.segments;
    var has := (e: Entry) => e.id == id;
    RootNotEmpty(snapshot);
    SnapshotLayout(segments, has);
    var tfr := new TermFieldReader(snapshot.offsets, AllHits(segments, has));
    var next := tfr.Next();
    if next.None? {
      NotFound(segments, has, id, index, next);
      return None;
    }
    Searchable(segments, has, next);
    var segmentIndex, local := SegmentIndexAndLocalDocNumFromGlobal(snapshot.offsets, next.value);
    FoundAt(segments, has, id, index, next, segmentIndex);
    return Some(segments[segmentIndex].docs[local].doc);
  }

  lemma {:induction false} Searchable(segments: seq<SegmentSnapshot>, has: Entry -> bool, next: Option<nat>)
    requires NoneEmpty(segments) && next.Some? && LeastFrom(All(Offsets(segments), AllHits(segments, has)), 0, next)
    ensures |segments| > 0 && Offsets(segments)[0] == 0
    ensures forall i, j | 0 <= i < j < |Offsets(segments)| :: Offsets(segments)[i] < Offsets(segments)[j]
  {
    hide Offsets, Hits;
    SnapshotLayout(segments, has);
  }

  /** The segment that starts last at or below a hit is the one that holds it. */
  lemma {:induction false} FoundAt(segments: seq<SegmentSnapshot>, has: Entry -> bool, id: DocId, index: Index, next: Option<nat>, i: nat)
    requires Holds(segments, index.docs) && has == ((e: Entry) => e.id == id)
    requires next.Some? && LeastFrom(All(Offsets(segments), AllHits(segments, has)), 0, next)
    requires i < |segments| && Offsets(segments)[i] <= next.value && (i + 1 < |segments| ==> next.value < Offsets(segments)[i + 1])
    ensures next.value - Offsets(segments)[i] < |segments[i].docs|
    ensures id in index.docs && segments[i].docs[next.value - Offsets(segments)[i]].doc == index.docs[id]
  {
    hide Offsets, Hits, All, Contents;
    HitsAreMatches(segments, has, next.value);
    var k: nat, d: nat :| Match(segments, has, k, d) && Global(segments, k, d) == next.value;
    SameSegment(segments, k, d, i);
    ListsLive(segments, k, d);
    var e := segments[k].docs[d];
    assert Occurrences(Contents(segments), e) == Listed(index.docs, e);
  }

  lemma {:induction false} SameSegment(segments: seq<SegmentSnapshot>, k: nat, d: nat, i: nat)
    requires k < |segments| && d < |segments[k].docs| && i < |segments|
    requires Offsets(segments)[i] <= Global(segments, k, d)
    requires i + 1 < |segments| ==> Global(segments, k, d) < Offsets(segments)[i + 1]
    ensures i == k
  {
    OffsetNext(segments, k);
    OffsetNext(segments, i);
    if i > k {
      OffsetsGrow(segments, k + 1, i);
    } else if i < k {
      OffsetNext(segments, i + 1);
      OffsetsGrow(segments, i + 1, k);
    }
  }

  lemma {:induction false} NotFound(segments: seq<SegmentSnapshot>, has: Entry -> bool, id: DocId, index: Index, next: Option<nat>)
    requires Holds(segments, index.docs) && has == ((e: Entry) => e.id == id)
    requires next.None? && LeastFrom(All(Offsets(segments), AllHits(segments, has)), 0, next)
    ensures id !in index.docs
  {
    hide Offsets, Hits, All, Contents;
    if id in index.docs {
      var e := Entry(id, index.docs[id]);
      assert Occurrences(Contents(segments), e) == Listed(index.docs, e);
      var k, d := ListedFrom(segments, e);
      assert Match(segments, has, k, d);
      HitsAreMatches(segments, has, Global(segments, k, d));
    }
  }
}
