/** Building one iterator for a whole conjunction or disjunction of terms, segment by segment, out
    of empty, 1-hit and bitmap postings. Bitmaps are shared objects: combining them must not change
    those of the children. */
module Unadorned {
  import opened Options
  import opened Postings

  /** A roaring bitmap. */
  class Bitmap {
    var numbers: set<nat>

    constructor (numbers: set<nat>)
      ensures this.numbers == numbers
    {
      this.numbers := numbers;
    }

    /** In place. */
    method And(other: Bitmap)
      modifies this
      ensures numbers == old(numbers) * old(other.numbers)
    {
      numbers := numbers * other.numbers;
    }

    /** In place. */
    method AddMany(docNums: seq<nat>)
      modifies this
      ensures numbers == old(numbers) + set n | n in docNums
    {
      numbers := numbers + set n | n in docNums;
    }

    method Clone() returns (r: Bitmap)
      ensures fresh(r) && r.numbers == numbers
    {
      r := new Bitmap(numbers);
    }
  }

  method AndNew(a: Bitmap, b: Bitmap) returns (r: Bitmap)
    ensures fresh(r) && r.numbers == a.numbers * b.numbers
  {
    r := new Bitmap(a.numbers * b.numbers);
  }

  method OrNew(a: Bitmap, b: Bitmap) returns (r: Bitmap)
    ensures fresh(r) && r.numbers == a.numbers + b.numbers
  {
    r := new Bitmap(a.numbers + b.numbers);
  }

  method HeapOr(bitmaps: seq<Bitmap>) returns (r: Bitmap)
    ensures fresh(r) && r.numbers == set b, n | b in bitmaps && n in b.numbers :: n
  {
    var all: set<nat> := {};
    for i := 0 to |bitmaps|
      invariant all == set k, n | 0 <= k < i && n in bitmaps[k].numbers :: n
    {
      all := all + bitmaps[i].numbers;
    }
    r := new Bitmap(all);
  }

  /** The iterator of one term in one segment: the special empty one, a 1-hit, one whose bitmap is
      missing or there, or one that cannot be optimized. */
  datatype Iterator =
    | Empty
    | OneHit(docNum: nat)
    | NoBitmap
    | Actual(bitmap: Bitmap)
    | Other(docs: set<nat>)

  function Docs(it: Iterator): set<nat>
    reads if it.Actual? then {it.bitmap} else {}
  {
    match it
    case Empty => {}
    case OneHit(n) => {n}
    case NoBitmap => {}
    case Actual(b) => b.numbers
    case Other(docs) => docs
  }

  function Bitmaps(its: seq<Iterator>): set<Bitmap> {
    set it | it in its && it.Actual? :: it.bitmap
  }

  /** Numbers that every child has. */
  predicate InAll(its: seq<Iterator>, n: nat)
    reads Bitmaps(its)
  {
    forall t | 0 <= t < |its| :: its[t] in its && n in Docs(its[t])
  }

  predicate InSome(its: seq<Iterator>, n: nat)
    reads Bitmaps(its)
  {
    exists t | 0 <= t < |its| :: its[t] in its && n in Docs(its[t])
  }

  /** An iterator over the numbers that every child has. */
  ghost predicate IsIntersection(its: seq<Iterator>, it: Iterator)
    reads Bitmaps(its), if it.Actual? then {it.bitmap} else {}
  {
    forall n: nat :: n in Docs(it) <==> InAll(its, n)
  }

  /** An iterator over the numbers that some child has. */
  ghost predicate IsUnion(its: seq<Iterator>, it: Iterator)
    reads Bitmaps(its), if it.Actual? then {it.bitmap} else {}
  {
    forall n: nat :: n in Docs(it) <==> InSome(its, n)
  }

  /** Segment-local numbers have 32 bits. */
  predicate Narrow(its: seq<Iterator>) {
    forall t | 0 <= t < |its| && its[t].OneHit? :: its[t].docNum < TWO_32
  }

  // ---- conjunction ----

  /** What has been collected from the first `n` children. */
  ghost predicate Collected(its: seq<Iterator>, n: nat, last: Option<nat>, bitmaps: seq<Bitmap>) {
    && n <= |its|
    && (forall t | 0 <= t < n :: its[t].OneHit? || its[t].Actual?)
    && (forall t | 0 <= t < n && its[t].OneHit? :: last == Some(its[t].docNum))
    && (last.Some? ==> exists t | 0 <= t < n :: its[t] == OneHit(last.value))
    && (forall t | 0 <= t < n && its[t].Actual? :: its[t].bitmap in bitmaps)
    && (forall b <- bitmaps :: exists t | 0 <= t < n :: its[t] == Actual(b))
  }

  /** A child that cannot be optimized is met before the result is known to be empty: all children before it
      have a bitmap or a single number, the same one. */
  ghost predicate GivesUpAt(its: seq<Iterator>, t: nat) {
    && t < |its| && its[t].Other? && (forall u | 0 <= u < t :: its[u].OneHit? || its[u].Actual?)
    && forall u, v | 0 <= u < v < t && its[u].OneHit? && its[v].OneHit? :: its[u].docNum == its[v].docNum
  }

  /** `None` is returned exactly when such a child is met; otherwise the result has exactly the
      numbers that all children have. Nothing that existed before is changed. */
  method AndSegment(its: seq<Iterator>) returns (r: Option<Iterator>)
    requires |its| > 1 && Narrow(its)
    ensures r.None? ==> exists t | 0 <= t < |its| :: its[t].Other?
    ensures r.None? <==> exists t: nat :: GivesUpAt(its, t)
    ensures r.Some? ==> IsIntersection(its, r.value)
  {
    var last: Option<nat> := None;
    var actualBMs: seq<Bitmap> := [];
    for t := 0 to |its|
      invariant Collected(its, t, last, actualBMs)
    {
      match its[t] {
        case Empty =>
          NoneInAll(its, t);
          return Some(Empty);
        case Other(_) =>
          assert GivesUpAt(its, t);
          return None;
        case OneHit(docNum1Hit) =>
          if last.Some? && last.value != docNum1Hit {
            var u :| 0 <= u < t && its[u] == OneHit(last.value);
            TwoHits(its, u, t);
            return Some(Empty);
          }
          last := Some(docNum1Hit);
        case NoBitmap =>
          NoneInAll(its, t);
          return Some(Empty);
        case Actual(b) =>
          actualBMs := actualBMs + [b];
      }
    }
    if last.Some? {
      var result := HitInAll(its, last.value, actualBMs);
      return Some(result);
    }
    var result := AndBitmaps(its, actualBMs);
    return Some(result);
  }

  lemma {:induction false} NoneInAll(its: seq<Iterator>, t: nat)
    requires t < |its| && (its[t].Empty? || its[t].NoBitmap?)
    ensures forall n: nat :: !InAll(its, n)
  {
  }

  lemma {:induction false} TwoHits(its: seq<Iterator>, t: nat, u: nat)
    requires t < |its| && u < |its| && its[t].OneHit? && its[u].OneHit? && its[t].docNum != its[u].docNum
    ensures forall n: nat :: !InAll(its, n)
  {
    forall n: nat
      ensures !InAll(its, n)
    {
      assert n in Docs(its[t]) ==> n !in Docs(its[u]);
    }
  }

  /** All 1-hits agree: the bitmaps decide. */
  method HitInAll(its: seq<Iterator>, hit: nat, actualBMs: seq<Bitmap>) returns (r: Iterator)
    requires Collected(its, |its|, Some(hit), actualBMs) && Narrow(its)
    ensures forall n: nat :: n in Docs(r) <==> InAll(its, n)
  {
    ghost var u :| 0 <= u < |its| && its[u] == OneHit(hit);
    assert forall n: nat :: InAll(its, n) ==> n in Docs(its[u]);
    for k := 0 to |actualBMs|
      invariant forall j | 0 <= j < k :: hit in actualBMs[j].numbers
    {
      if hit % TWO_32 !in actualBMs[k].numbers {
        ghost var t :| 0 <= t < |its| && its[t] == Actual(actualBMs[k]);
        assert !InAll(its, hit) by { assert hit !in Docs(its[t]); }
        return Empty;
      }
    }
    assert InAll(its, hit);
    return OneHit(hit);
  }

  /** No 1-hit: the bitmaps are AND'ed into a new one, or shared when there is only one. */
  method AndBitmaps(its: seq<Iterator>, actualBMs: seq<Bitmap>) returns (r: Iterator)
    requires |its| > 0 && Collected(its, |its|, None, actualBMs)
    ensures forall n: nat :: n in Docs(r) <==> InAll(its, n)
  {
    assert its[0].Actual? && its[0].bitmap in actualBMs;
    if |actualBMs| == 1 {
      AllBitmaps(its, actualBMs);
      return Actual(actualBMs[0]);
    }
    var bm := AndNew(actualBMs[0], actualBMs[1]);
    for k := 2 to |actualBMs|
      invariant fresh(bm)
      invariant forall n: nat :: n in bm.numbers <==> forall j | 0 <= j < k :: n in actualBMs[j].numbers
    {
      bm.And(actualBMs[k]);
    }
    AllBitmaps(its, actualBMs);
    return Actual(bm);
  }

  lemma {:induction false} AllBitmaps(its: seq<Iterator>, actualBMs: seq<Bitmap>)
    requires Collected(its, |its|, None, actualBMs)
    ensures forall n: nat :: InAll(its, n) <==> forall j | 0 <= j < |actualBMs| :: n in actualBMs[j].numbers
  {
    forall n: nat
      ensures InAll(its, n) <==> forall j | 0 <= j < |actualBMs| :: n in actualBMs[j].numbers
    {
      if InAll(its, n) {
        forall j | 0 <= j < |actualBMs|
          ensures n in actualBMs[j].numbers
        {
          assert actualBMs[j] in actualBMs;
          var t :| 0 <= t < |its| && its[t] == Actual(actualBMs[j]);
          assert n in Docs(its[t]);
        }
      }
      if forall j | 0 <= j < |actualBMs| :: n in actualBMs[j].numbers {
        forall t | 0 <= t < |its|
          ensures n in Docs(its[t])
        {
          var j :| 0 <= j < |actualBMs| && actualBMs[j] == its[t].bitmap;
        }
      }
    }
  }

  // ---- disjunction ----

  /** The special empty iterator does not support the optimization here. */
  predicate OrOptimizable(it: Iterator) { !it.Empty? && !it.Other? }

  /** `None` is returned when some child cannot be optimized; otherwise the result has exactly the
      numbers that some child has, in a bitmap of its own. */
  method OrSegment(its: seq<Iterator>) returns (r: Option<Iterator>)
    requires Narrow(its)
    ensures r.None? <==> exists t | 0 <= t < |its| :: !OrOptimizable(its[t])
    ensures r.Some? ==> r.value.Actual? && fresh(r.value.bitmap)
    ensures r.Some? ==> IsUnion(its, r.value)
  {
    var docNums: seq<nat> := [];
    var actualBMs: seq<Bitmap> := [];
    for t := 0 to |its|
      invariant forall u | 0 <= u < t :: OrOptimizable(its[u])
      invariant Picked(its, t, docNums, actualBMs)
    {
      match its[t] {
        case Empty => return None;
        case Other(_) => return None;
        case OneHit(docNum) => docNums := docNums + [docNum % TWO_32];
        case NoBitmap =>
        case Actual(b) => actualBMs := actualBMs + [b];
      }
    }
    var bm: Bitmap;
    if |actualBMs| > 2 {
      bm := HeapOr(actualBMs);
    } else if |actualBMs| == 2 {
      bm := OrNew(actualBMs[0], actualBMs[1]);
    } else if |actualBMs| == 1 {
      bm := actualBMs[0].Clone();
    } else {
      bm := new Bitmap({});
    }
    assert forall n: nat :: n in bm.numbers <==> exists j | 0 <= j < |actualBMs| :: n in actualBMs[j].numbers;
    bm.AddMany(docNums);
    PickedAll(its, docNums, actualBMs);
    return Some(Actual(bm));
  }

  /** What has been picked from the first `n` children. */
  ghost predicate Picked(its: seq<Iterator>, n: nat, docNums: seq<nat>, bitmaps: seq<Bitmap>) {
    && n <= |its|
    && (forall t | 0 <= t < n && its[t].OneHit? :: its[t].docNum in docNums)
    && (forall d <- docNums :: exists t | 0 <= t < n :: its[t] == OneHit(d))
    && (forall t | 0 <= t < n && its[t].Actual? :: its[t].bitmap in bitmaps)
    && (forall b <- bitmaps :: exists t | 0 <= t < n :: its[t] == Actual(b))
  }

  lemma {:induction false} PickedAll(its: seq<Iterator>, docNums: seq<nat>, bitmaps: seq<Bitmap>)
    requires Picked(its, |its|, docNums, bitmaps) && forall t | 0 <= t < |its| :: OrOptimizable(its[t])
    ensures forall n: nat :: InSome(its, n) <==> n in docNums || exists j | 0 <= j < |bitmaps| :: n in bitmaps[j].numbers
  {
    forall n: nat
      ensures InSome(its, n) <==> n in docNums || exists j | 0 <= j < |bitmaps| :: n in bitmaps[j].numbers
    {
      if InSome(its, n) {
        var t :| 0 <= t < |its| && n in Docs(its[t]);
        if its[t].Actual? {
          var j :| 0 <= j < |bitmaps| && bitmaps[j] == its[t].bitmap;
        }
      }
      if n in docNums {
        var t :| 0 <= t < |its| && its[t] == OneHit(n);
        assert n in Docs(its[t]);
      }
      if j :| 0 <= j < |bitmaps| && n in bitmaps[j].numbers {
        assert bitmaps[j] in bitmaps;
        var t :| 0 <= t < |its| && its[t] == Actual(bitmaps[j]);
        assert n in Docs(its[t]);
      }
    }
  }

  // ---- the conjunction that keeps its children ----

  /** Children with bitmaps now share their intersection; the rest stay. */
  method ShareIntersection(its: seq<Iterator>) returns (now: seq<Iterator>)
    requires |its| > 1
    ensures |now| == |its|
    ensures forall n: nat :: InAll(now, n) <==> InAll(its, n)
    ensures forall t | 0 <= t < |its| :: Docs(now[t]) <= Docs(its[t]) && (now[t] != its[t] ==> its[t].Actual? && now[t].Actual?)
  {
    if !its[0].Actual? || !its[1].Actual? {
      return its;
    }
    var bm := AndNew(its[0].bitmap, its[1].bitmap);
    for t := 2 to |its|
      invariant fresh(bm)
      invariant forall n: nat :: n in bm.numbers <==> forall u | 0 <= u < t && its[u].Actual? :: n in Docs(its[u])
    {
      if its[t].Actual? {
        bm.And(its[t].bitmap);
      }
    }
    now := [];
    for t := 0 to |its|
      invariant |now| == t
      invariant forall u | 0 <= u < t :: now[u] == if its[u].Actual? then Actual(bm) else its[u]
    {
      now := now + [if its[t].Actual? then Actual(bm) else its[t]];
    }
    forall n: nat
      ensures InAll(now, n) <==> InAll(its, n)
    {
      if InAll(now, n) {
        assert n in Docs(now[0]);
        forall t | 0 <= t < |its|
          ensures n in Docs(its[t])
        {
          assert n in Docs(now[t]);
        }
      }
      if InAll(its, n) {
        forall t | 0 <= t < |its|
          ensures n in Docs(now[t])
        {
          assert forall u | 0 <= u < |its| && its[u].Actual? :: n in Docs(its[u]);
          assert n in Docs(its[t]);
        }
      }
    }
  }

  // ---- all segments ----

  /** The iterators of all readers in segment `i`. */
  function Column(tfrs: seq<seq<Iterator>>, i: nat): (r: seq<Iterator>)
    requires forall t | 0 <= t < |tfrs| :: i < |tfrs[t]|
    ensures |r| == |tfrs| && forall t | 0 <= t < |r| :: r[t] == tfrs[t][i]
  {
    seq(|tfrs|, t requires 0 <= t < |tfrs| => tfrs[t][i])
  }

  /** The reader of an optimized conjunction: in every segment the intersection. */
  method FinishConjunction(tfrs: seq<seq<Iterator>>, segments: nat) returns (r: Option<seq<Iterator>>)
    requires forall t | 0 <= t < |tfrs| :: |tfrs[t]| == segments
    requires forall i | 0 <= i < segments :: Narrow(Column(tfrs, i))
    ensures r.None? <==> |tfrs| <= 1 || exists i, t: nat :: 0 <= i < segments && GivesUpAt(Column(tfrs, i), t)
    ensures r.Some? ==> |r.value| == segments
    ensures r.Some? ==> forall i | 0 <= i < segments :: IsIntersection(Column(tfrs, i), r.value[i])
  {
    hide GivesUpAt, IsIntersection;
    if |tfrs| <= 1 {
      return None;
    }
    var iterators: seq<Iterator> := [];
    for i := 0 to segments
      invariant |iterators| == i
      invariant forall k, t: nat | 0 <= k < i :: !GivesUpAt(Column(tfrs, k), t)
      invariant forall k | 0 <= k < i :: IsIntersection(Column(tfrs, k), iterators[k])
    {
      var one := NextAnd(tfrs, i, iterators);
      if one.None? {
        return None;
      }
      iterators := iterators + [one.value];
    }
    return Some(iterators);
  }

  /** One segment more, beside those that are done. */
  method NextOr(tfrs: seq<seq<Iterator>>, i: nat, ghost done: seq<Iterator>) returns (r: Option<Iterator>)
    requires |tfrs| > 1 && (forall t | 0 <= t < |tfrs| :: i < |tfrs[t]|) && |done| == i && Narrow(Column(tfrs, i))
    requires forall k | 0 <= k < i :: IsUnion(Column(tfrs, k), done[k])
    ensures forall k | 0 <= k < i :: IsUnion(Column(tfrs, k), done[k])
    ensures r.None? <==> exists t | 0 <= t < |tfrs| :: !OrOptimizable(Column(tfrs, i)[t])
    ensures r.Some? ==> IsUnion(Column(tfrs, i), r.value)
  {
    r := OrSegment(Column(tfrs, i));
  }

  method NextAnd(tfrs: seq<seq<Iterator>>, i: nat, ghost done: seq<Iterator>) returns (r: Option<Iterator>)
    requires |tfrs| > 1 && (forall t | 0 <= t < |tfrs| :: i < |tfrs[t]|) && |done| == i && Narrow(Column(tfrs, i))
    requires forall k | 0 <= k < i :: IsIntersection(Column(tfrs, k), done[k])
    ensures forall k | 0 <= k < i :: IsIntersection(Column(tfrs, k), done[k])
    ensures r.None? <==> exists t: nat :: GivesUpAt(Column(tfrs, i), t)
    ensures r.Some? ==> IsIntersection(Column(tfrs, i), r.value)
  {
    hide GivesUpAt;
    r := AndSegment(Column(tfrs, i));
  }

  /** The reader of an optimized disjunction: in every segment the union. */
  method FinishDisjunction(tfrs: seq<seq<Iterator>>, segments: nat) returns (r: Option<seq<Iterator>>)
    requires forall t | 0 <= t < |tfrs| :: |tfrs[t]| == segments
    requires forall i | 0 <= i < segments :: Narrow(Column(tfrs, i))
    ensures r.None? <==> |tfrs| <= 1 || exists t, i | 0 <= t < |tfrs| && 0 <= i < segments :: !OrOptimizable(tfrs[t][i])
    ensures r.Some? ==> |r.value| == segments
    ensures r.Some? ==> forall i | 0 <= i < segments :: IsUnion(Column(tfrs, i), r.value[i])
  {
    hide IsUnion;
    if |tfrs| <= 1 {
      return None;
    }
    var iterators: seq<Iterator> := [];
    for i := 0 to segments
      invariant |iterators| == i
      invariant forall t, k | 0 <= t < |tfrs| && 0 <= k < i :: OrOptimizable(tfrs[t][k])
      invariant forall k | 0 <= k < i :: IsUnion(Column(tfrs, k), iterators[k])
    {
      var one := NextOr(tfrs, i, iterators);
      if one.None? {
        ghost var t :| 0 <= t < |tfrs| && !OrOptimizable(Column(tfrs, i)[t]);
        assert !OrOptimizable(tfrs[t][i]);
        return None;
      }
      assert forall t | 0 <= t < |tfrs| :: OrOptimizable(Column(tfrs, i)[t]);
      iterators := iterators + [one.value];
    }
    return Some(iterators);
  }
}
