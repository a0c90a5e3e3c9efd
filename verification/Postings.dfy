/** Iterators over the postings of one segment. */
module Postings {
  import opened Options

  predicate Ascends(a: seq<nat>) {
    forall i, j | 0 <= i < j < |a| :: a[i] < a[j]
  }

  /** What is left from the first number that is not below `n`. */
  function AtOrAfter(a: seq<nat>, n: nat): seq<nat> {
    if a == [] || a[0] >= n then a else AtOrAfter(a[1..], n)
  }

  function Head(a: seq<nat>): Option<nat> { if a == [] then None else Some(a[0]) }
  function Tail(a: seq<nat>): seq<nat> { if a == [] then [] else a[1..] }

  lemma {:induction false} AtOrAfterIs(a: seq<nat>, n: nat)
    requires Ascends(a)
    ensures |AtOrAfter(a, n)| <= |a| && AtOrAfter(a, n) == a[|a| - |AtOrAfter(a, n)|..]
    ensures forall i | 0 <= i < |a| :: a[i] < n <==> i < |a| - |AtOrAfter(a, n)|
  {
    if a != [] && a[0] < n {
      AtOrAfterIs(a[1..], n);
      var k := |a| - |AtOrAfter(a, n)|;
      forall i | 0 <= i < |a|
        ensures a[i] < n <==> i < k
      {
        assert i > 0 ==> a[1..][i - 1] == a[i];
      }
    }
  }

  /** An iterator of the segment plugin, by its contract: ascending numbers, forwards only. */
  class PostingsIterator {
    const hits: seq<nat>
    var pos: nat

    constructor (hits: seq<nat>)
      requires Ascends(hits)
      ensures this.hits == hits && pos == 0 && Valid()
    {
      this.hits := hits;
      pos := 0;
    }

    predicate Valid()
      reads this
    {
      pos <= |hits| && Ascends(hits)
    }

    function Left(): seq<nat>
      requires Valid()
      reads this
    {
      hits[pos..]
    }

    method Next() returns (r: Option<nat>)
      requires Valid()
      modifies this
      ensures Valid() && r == Head(old(Left())) && Left() == Tail(old(Left()))
      ensures pos == if r.Some? then old(pos) + 1 else old(pos)
    {
      if pos == |hits| {
        return None;
      }
      pos := pos + 1;
      return Some(hits[pos - 1]);
    }

    /** Moves to the first number not below the target, if it is ahead. */
    method Seek(docNum: nat)
      requires Valid()
      modifies this
      ensures Valid() && Left() == AtOrAfter(old(Left()), docNum)
      ensures old(pos) <= pos && (forall i | old(pos) <= i < pos :: hits[i] < docNum)
      ensures pos < |hits| ==> hits[pos] >= docNum
    {
      ghost var start := Left();
      while pos < |hits| && hits[pos] < docNum
        invariant Valid()
        invariant AtOrAfter(Left(), docNum) == AtOrAfter(start, docNum)
        invariant old(pos) <= pos && forall i | old(pos) <= i < pos :: hits[i] < docNum
        decreases |hits| - pos
      {
        pos := pos + 1;
      }
    }

    method Advance(docNum: nat) returns (r: Option<nat>)
      requires Valid()
      modifies this
      ensures Valid() && r == Head(AtOrAfter(old(Left()), docNum)) && Left() == Tail(AtOrAfter(old(Left()), docNum))
    {
      Seek(docNum);
      r := Next();
    }
  }

  const TWO_32: nat := 0x1_0000_0000

  /** The unadorned iterator over a bitmap. Advancing truncates the target to 32 bits. */
  class BitmapIterator {
    const actualBM: seq<nat>
    var actual: seq<nat>

    constructor (bitmap: seq<nat>)
      ensures actualBM == bitmap && actual == bitmap
    {
      actualBM, actual := bitmap, bitmap;
    }

    /** The numbers of the bitmap fit 32 bits, and the last ones of them are left. */
    predicate Valid()
      reads this
    {
      && Ascends(actualBM) && (forall i | 0 <= i < |actualBM| :: actualBM[i] < TWO_32)
      && |actual| <= |actualBM| && actual == actualBM[|actualBM| - |actual|..]
    }

    method NextDocNumAtOrAfter(atOrAfter: nat) returns (docNum: nat, found: bool)
      modifies this`actual
      ensures (if found then Some(docNum) else None) == Head(AtOrAfter(old(actual), atOrAfter % TWO_32))
      ensures actual == Tail(AtOrAfter(old(actual), atOrAfter % TWO_32))
    {
      if |actual| == 0 {
        return 0, false;
      }
      var target := atOrAfter % TWO_32;
      ghost var start := actual;
      while |actual| > 0 && actual[0] < target
        invariant AtOrAfter(actual, target) == AtOrAfter(start, target)
      {
        actual := actual[1..];
      }
      if |actual| == 0 {
        return 0, false;
      }
      docNum, found := actual[0], true;
      actual := actual[1..];
    }

    method ResetIterator()
      modifies this`actual
      ensures actual == actualBM
    {
      actual := actualBM;
    }
  }

  /** Whether a target cut to 32 bits still finds what the whole target would: it fits, or nothing
      that is left reaches the cut one. */
  predicate Fits(left: seq<nat>, target: nat) {
    target < TWO_32 || left == [] || left[|left| - 1] < target % TWO_32
  }

  /** Bitmaps hold 32-bit numbers, so advancing is right exactly for targets that fit; any other
      lets a smaller number through. */
  lemma {:induction false} TruncatedTarget(left: seq<nat>, target: nat)
    requires Ascends(left) && forall i | 0 <= i < |left| :: left[i] < TWO_32
    ensures AtOrAfter(left, target % TWO_32) == AtOrAfter(left, target) <==> Fits(left, target)
    ensures !Fits(left, target) ==> AtOrAfter(left, target) == [] && AtOrAfter(left, target % TWO_32) != []
  {
    AtOrAfterIs(left, target);
    AtOrAfterIs(left, target % TWO_32);
    if target >= TWO_32 && left != [] {
      assert left[|left| - 1] < target;
    }
  }

  /** From the target 2^32 on nothing is left of 5, but the cut target finds it. */
  lemma {:induction false} LetThrough()
    ensures !Fits([5], TWO_32) && AtOrAfter([5], TWO_32) == [] && AtOrAfter([5], TWO_32 % TWO_32) == [5]
  {
    assert TWO_32 % TWO_32 == 0;
  }

  /** The number that marks a consumed 1-hit. */
  const FINISHED := 0xFFFF_FFFF_FFFF_FFFF

  /** The unadorned iterator over a single number. */
  class OneHitIterator {
    const docNumOrig: nat
    var docNum: nat

    constructor (docNum1Hit: nat)
      ensures docNumOrig == docNum == docNum1Hit
    {
      docNumOrig, docNum := docNum1Hit, docNum1Hit;
    }

    function Left(): seq<nat>
      reads this
    {
      if docNum == FINISHED then [] else [docNum]
    }

    /** It behaves as the iterator over the one-element sequence. */
    method NextDocNumAtOrAfter(atOrAfter: nat) returns (r: nat, found: bool)
      modifies this`docNum
      ensures (if found then Some(r) else None) == Head(AtOrAfter(old(Left()), atOrAfter))
      ensures Left() == Tail(AtOrAfter(old(Left()), atOrAfter))
    {
      if docNum == FINISHED {
        return 0, false;
      }
      if docNum < atOrAfter {
        docNum := FINISHED;
        return 0, false;
      }
      r, found := docNum, true;
      docNum := FINISHED;
    }

    method ResetIterator()
      modifies this`docNum
      ensures docNum == docNumOrig
    {
      docNum := docNumOrig;
    }
  }

  /** The special empty iterator. It has no state, so that one is shared by all does not matter. */
  class EmptyIterator {
    constructor () {}
  }

  /** What a reader holds for one segment: an iterator of the segment plugin, one over a combined
      bitmap, one over a single number, or the special empty one. */
  datatype SegmentIterator =
    | Plugin(postings: PostingsIterator)
    | OverBitmap(bitmap: BitmapIterator)
    | OverOneHit(oneHit: OneHitIterator)
    | NoPostings(empty: EmptyIterator)
  {
    function Object(): object {
      match this
      case Plugin(p) => p
      case OverBitmap(b) => b
      case OverOneHit(h) => h
      case NoPostings(e) => e
    }

    predicate Valid()
      reads Object()
    {
      match this
      case Plugin(p) => p.Valid()
      case OverBitmap(b) => b.Valid()
      case OverOneHit(h) => h.docNum == FINISHED || h.docNum == h.docNumOrig
      case NoPostings(_) => true
    }

    /** All numbers it ranges over. */
    function Hits(): seq<nat> {
      match this
      case Plugin(p) => p.hits
      case OverBitmap(b) => b.actualBM
      case OverOneHit(h) => if h.docNumOrig == FINISHED then [] else [h.docNumOrig]
      case NoPostings(_) => []
    }

    function Left(): seq<nat>
      requires Valid()
      reads Object()
    {
      match this
      case Plugin(p) => p.Left()
      case OverBitmap(b) => b.actual
      case OverOneHit(h) => h.Left()
      case NoPostings(_) => []
    }

    /** How many have been passed. */
    function Passed(): (r: nat)
      requires Valid()
      reads Object()
      ensures r <= |Hits()| && Left() == Hits()[r..]
    {
      |Hits()| - |Left()|
    }

    /** The target as the iterator sees it. */
    function Cut(docNum: nat): nat {
      if OverBitmap? then docNum % TWO_32 else docNum
    }

    lemma {:induction false} HitsAscend()
      requires Valid()
      ensures Ascends(Hits()) && (OverBitmap? ==> forall i | 0 <= i < |Hits()| :: Hits()[i] < TWO_32)
    {
    }

    method Next() returns (r: Option<nat>)
      requires Valid()
      modifies Object()
      ensures Valid() && r == Head(old(Left())) && Left() == Tail(old(Left()))
      ensures r == (if old(Passed()) < |Hits()| then Some(Hits()[old(Passed())]) else None)
      ensures Passed() == if r.Some? then old(Passed()) + 1 else old(Passed())
    {
      match this {
        case Plugin(p) => r := p.Next();
        case OverBitmap(b) => r := NextOfBitmap(b, 0);
        case OverOneHit(h) =>
          var n, found := h.NextDocNumAtOrAfter(0);
          r := if found then Some(n) else None;
        case NoPostings(_) => r := None;
      }
    }

    method Advance(docNum: nat) returns (r: Option<nat>)
      requires Valid()
      modifies Object()
      ensures Valid() && r == Head(AtOrAfter(old(Left()), Cut(docNum))) && Left() == Tail(AtOrAfter(old(Left()), Cut(docNum)))
      ensures Passed() == |Hits()| - |Tail(AtOrAfter(old(Left()), Cut(docNum)))|
    {
      match this {
        case Plugin(p) => r := p.Advance(docNum);
        case OverBitmap(b) => r := NextOfBitmap(b, docNum);
        case OverOneHit(h) =>
          var n, found := h.NextDocNumAtOrAfter(docNum);
          r := if found then Some(n) else None;
        case NoPostings(_) => r := None;
      }
    }

    /** Back to the start, for the kinds that can be reset; those of the plugin cannot. */
    method Reset()
      requires Valid()
      modifies Object()
      ensures Valid() && Passed() == if Plugin? then old(Passed()) else 0
    {
      match this {
        case Plugin(_) =>
        case OverBitmap(b) => b.ResetIterator();
        case OverOneHit(h) => h.ResetIterator();
        case NoPostings(_) =>
      }
    }
  }

  method NextOfBitmap(b: BitmapIterator, atOrAfter: nat) returns (r: Option<nat>)
    requires b.Valid()
    modifies b`actual
    ensures b.Valid()
    ensures r == Head(AtOrAfter(old(b.actual), atOrAfter % TWO_32)) && b.actual == Tail(AtOrAfter(old(b.actual), atOrAfter % TWO_32))
  {
    AtOrAfterIs(b.actual, atOrAfter % TWO_32);
    var n, found := b.NextDocNumAtOrAfter(atOrAfter);
    r := if found then Some(n) else None;
  }
}
