/** Comparing and sorting the hits of a search. */
module Ranking {
  import opened Uvarint

  datatype SortField = SortField(scoring: bool, desc: bool)

  /** A hit with its sort values, one for each field, and its place in the index. */
  datatype Hit = Hit(id: string, score: real, sort: seq<Bytes>, hitNumber: nat)

  predicate HasValues(order: seq<SortField>, h: Hit) { |h.sort| == |order| }

  function CompareField(f: SortField, x: nat, i: Hit, j: Hit): int
    requires x < |i.sort| && x < |j.sort|
  {
    var c := if f.scoring then (if i.score < j.score then -1 else if i.score > j.score then 1 else 0)
             else (if LexLess(i.sort[x], j.sort[x]) then -1 else if LexLess(j.sort[x], i.sort[x]) then 1 else 0);
    if f.desc then -c else c
  }

  /** The first field that tells them apart decides, and then the place in the index. */
  function CompareFrom(order: seq<SortField>, x: nat, i: Hit, j: Hit): int
    requires HasValues(order, i) && HasValues(order, j) && x <= |order|
    decreases |order| - x
  {
    if x == |order| then (if i.hitNumber == j.hitNumber then 0 else if i.hitNumber > j.hitNumber then 1 else -1)
    else
      var c := CompareField(order[x], x, i, j);
      if c != 0 then c else CompareFrom(order, x + 1, i, j)
  }

  method Compare(order: seq<SortField>, i: Hit, j: Hit) returns (r: int)
    requires HasValues(order, i) && HasValues(order, j)
    ensures r == CompareFrom(order, 0, i, j)
    ensures forall x: nat | FirstDifference(order, x, i, j) :: r != 0 && (r < 0 <==> Ahead(order, x, i, j))
    ensures NoDifference(order, i, j) ==> (r < 0 <==> i.hitNumber < j.hitNumber) && (r == 0 <==> i.hitNumber == j.hitNumber)
  {
    DecidedBy(order, i, j);
    for x := 0 to |order|
      invariant CompareFrom(order, 0, i, j) == CompareFrom(order, x, i, j)
    {
      var c := 0;
      if order[x].scoring {
        if i.score < j.score {
          c := -1;
        } else if i.score > j.score {
          c := 1;
        }
      } else {
        var iVal, jVal := i.sort[x], j.sort[x];
        if LexLess(iVal, jVal) {
          c := -1;
        } else if LexLess(jVal, iVal) {
          c := 1;
        }
      }
      if c != 0 {
        if order[x].desc {
          c := -c;
        }
        return c;
      }
    }
    if i.hitNumber == j.hitNumber {
      return 0;
    } else if i.hitNumber > j.hitNumber {
      return 1;
    }
    return -1;
  }

  // ---- what decides ----

  /** Two hits differ in a field by their scores or by their sort values. */
  predicate Differ(f: SortField, x: nat, i: Hit, j: Hit)
    requires x < |i.sort| && x < |j.sort|
  {
    if f.scoring then i.score != j.score else i.sort[x] != j.sort[x]
  }

  predicate Lower(f: SortField, x: nat, i: Hit, j: Hit)
    requires x < |i.sort| && x < |j.sort|
  {
    if f.scoring then i.score < j.score else LexLess(i.sort[x], j.sort[x])
  }

  ghost predicate FirstDifference(order: seq<SortField>, x: nat, i: Hit, j: Hit) {
    && HasValues(order, i) && HasValues(order, j) && x < |order| && Differ(order[x], x, i, j)
    && forall y | 0 <= y < x :: !Differ(order[y], y, i, j)
  }

  ghost predicate NoDifference(order: seq<SortField>, i: Hit, j: Hit) {
    HasValues(order, i) && HasValues(order, j) && forall y | 0 <= y < |order| :: !Differ(order[y], y, i, j)
  }

  /** The first field in which they differ puts `i` ahead: it is lower there, or higher where the
      field is descending. */
  ghost predicate Ahead(order: seq<SortField>, x: nat, i: Hit, j: Hit) {
    FirstDifference(order, x, i, j) && if order[x].desc then Lower(order[x], x, j, i) else Lower(order[x], x, i, j)
  }

  /** One hit comes before another: the first field in which they differ puts it ahead, or, if they
      differ in none, its lower hit number. */
  ghost predicate Before(order: seq<SortField>, i: Hit, j: Hit) {
    || (exists x: nat :: Ahead(order, x, i, j))
    || (NoDifference(order, i, j) && i.hitNumber < j.hitNumber)
  }

  lemma {:induction false} FieldDecides(f: SortField, x: nat, i: Hit, j: Hit)
    requires x < |i.sort| && x < |j.sort|
    ensures CompareField(f, x, i, j) == 0 <==> !Differ(f, x, i, j)
    ensures CompareField(f, x, i, j) < 0 <==> if f.desc then Lower(f, x, j, i) else Lower(f, x, i, j)
  {
    if !f.scoring {
      LexTotal(i.sort[x], j.sort[x]);
      LexIrreflexive(i.sort[x]);
      if LexLess(i.sort[x], j.sort[x]) {
        LexAsymmetric(i.sort[x], j.sort[x]);
      }
    }
  }

  lemma {:induction false} FirstDecides(order: seq<SortField>, y: nat, x: nat, i: Hit, j: Hit)
    requires FirstDifference(order, x, i, j) && y <= x
    ensures CompareFrom(order, y, i, j) == CompareField(order[x], x, i, j) != 0
    decreases x - y
  {
    hide Lower, Differ, CompareField;
    FieldDecides(order[y], y, i, j);
    if y < x {
      FirstDecides(order, y + 1, x, i, j);
    }
  }

  lemma {:induction false} HitNumbersDecide(order: seq<SortField>, y: nat, i: Hit, j: Hit)
    requires NoDifference(order, i, j) && y <= |order|
    ensures CompareFrom(order, y, i, j) == if i.hitNumber == j.hitNumber then 0 else if i.hitNumber > j.hitNumber then 1 else -1
    decreases |order| - y
  {
    hide Lower, Differ, CompareField;
    if y < |order| {
      FieldDecides(order[y], y, i, j);
      HitNumbersDecide(order, y + 1, i, j);
    }
  }

  /** The first field in which they differ decides, in its direction, and then the hit numbers. */
  lemma {:induction false} DecidedBy(order: seq<SortField>, i: Hit, j: Hit)
    requires HasValues(order, i) && HasValues(order, j)
    ensures
      var r := CompareFrom(order, 0, i, j);
      && (forall x: nat | FirstDifference(order, x, i, j) :: r != 0 && (r < 0 <==> Ahead(order, x, i, j)))
      && (NoDifference(order, i, j) ==> (r < 0 <==> i.hitNumber < j.hitNumber) && (r == 0 <==> i.hitNumber == j.hitNumber))
  {
    hide FirstDifference, NoDifference, Lower, CompareFrom, CompareField;
    var r := CompareFrom(order, 0, i, j);
    forall x: nat | FirstDifference(order, x, i, j)
      ensures r != 0 && (r < 0 <==> Ahead(order, x, i, j))
    {
      FirstDecides(order, 0, x, i, j);
      IsField(order, x, i, j);
      FieldDecides(order[x], x, i, j);
    }
    if NoDifference(order, i, j) {
      HitNumbersDecide(order, 0, i, j);
    }
  }

  lemma {:induction false} IsField(order: seq<SortField>, x: nat, i: Hit, j: Hit)
    requires FirstDifference(order, x, i, j)
    ensures HasValues(order, i) && HasValues(order, j) && x < |order|
  {
  }

  lemma {:induction false} SomeDifference(order: seq<SortField>, i: Hit, j: Hit, y: nat)
    requires HasValues(order, i) && HasValues(order, j) && y <= |order| && forall k | 0 <= k < y :: !Differ(order[k], k, i, j)
    ensures NoDifference(order, i, j) || exists x: nat :: FirstDifference(order, x, i, j)
    decreases |order| - y
  {
    hide Differ;
    if y < |order| {
      if Differ(order[y], y, i, j) {
        assert FirstDifference(order, y, i, j);
      } else {
        SomeDifference(order, i, j, y + 1);
      }
    }
  }

  /** That is the order in which hits are sorted. */
  lemma {:induction false} LessIsBefore(order: seq<SortField>, i: Hit, j: Hit)
    requires HasValues(order, i) && HasValues(order, j)
    ensures Less(order, i, j) <==> Before(order, i, j)
  {
    DecidedBy(order, i, j);
    SomeDifference(order, i, j, 0);
    hide FirstDifference, NoDifference, Lower, CompareFrom;
  }

  lemma {:induction false} FieldFlips(f: SortField, x: nat, i: Hit, j: Hit)
    requires x < |i.sort| && x < |j.sort|
    ensures CompareField(f, x, i, j) == -CompareField(f, x, j, i)
  {
    if LexLess(i.sort[x], j.sort[x]) {
      LexAsymmetric(i.sort[x], j.sort[x]);
    }
    if LexLess(j.sort[x], i.sort[x]) {
      LexAsymmetric(j.sort[x], i.sort[x]);
    }
  }

  lemma {:induction false} CompareFlips(order: seq<SortField>, x: nat, i: Hit, j: Hit)
    requires HasValues(order, i) && HasValues(order, j) && x <= |order|
    ensures CompareFrom(order, x, i, j) == -CompareFrom(order, x, j, i)
    decreases |order| - x
  {
    if x < |order| {
      FieldFlips(order[x], x, i, j);
      CompareFlips(order, x + 1, i, j);
    }
  }

  lemma {:induction false} FieldTransitive(f: SortField, x: nat, i: Hit, j: Hit, k: Hit)
    requires x < |i.sort| && x < |j.sort| && x < |k.sort|
    requires CompareField(f, x, i, j) <= 0 && CompareField(f, x, j, k) <= 0
    ensures CompareField(f, x, i, k) <= 0
    ensures CompareField(f, x, i, k) == 0 <==> CompareField(f, x, i, j) == 0 && CompareField(f, x, j, k) == 0
  {
    if !f.scoring {
      var (a, b, c) := (i.sort[x], j.sort[x], k.sort[x]);
      LexTotal(a, b);
      LexTotal(b, c);
      LexIrreflexive(a);
      if f.desc {
        LexChain(c, b, a);
      } else {
        LexChain(a, b, c);
      }
    }
  }

  lemma {:induction false} LexChain(a: Bytes, b: Bytes, c: Bytes)
    requires (LexLess(a, b) || a == b) && (LexLess(b, c) || b == c)
    ensures a == c || LexLess(a, c)
    ensures a == c ==> a == b
    ensures !LexLess(c, a) && !LexLess(b, a) && !LexLess(c, b)
  {
    LexIrreflexive(a);
    LexIrreflexive(b);
    if LexLess(a, b) {
      LexAsymmetric(a, b);
      if LexLess(b, c) {
        LexTransitive(a, b, c);
      }
    }
    if LexLess(b, c) {
      LexAsymmetric(b, c);
    }
    if LexLess(a, c) {
      LexAsymmetric(a, c);
    }
  }

  lemma {:induction false} CompareTransitive(order: seq<SortField>, x: nat, i: Hit, j: Hit, k: Hit)
    requires HasValues(order, i) && HasValues(order, j) && HasValues(order, k) && x <= |order|
    requires CompareFrom(order, x, i, j) < 0 && CompareFrom(order, x, j, k) < 0
    ensures CompareFrom(order, x, i, k) < 0
    decreases |order| - x
  {
    if x < |order| {
      hide CompareField;
      FieldTransitive(order[x], x, i, j, k);
      if CompareField(order[x], x, i, k) == 0 {
        CompareTransitive(order, x + 1, i, j, k);
      }
    }
  }

  /** Hits that the order tells apart; within one index the place in the index does. */
  ghost predicate Strict(order: seq<SortField>, hits: seq<Hit>) {
    && (forall h :: multiset(hits)[h] <= 1)
    && (forall h | h in hits :: HasValues(order, h))
    && (forall g, h | g in hits && h in hits && g != h && HasValues(order, g) && HasValues(order, h) ::
          CompareFrom(order, 0, g, h) != 0)
  }

  /** That does not depend on the sequence, and holds of any part of it. */
  lemma {:induction false} StrictPart(order: seq<SortField>, some: seq<Hit>, all: seq<Hit>)
    requires Strict(order, all) && multiset(some) <= multiset(all)
    ensures Strict(order, some)
  {
    hide CompareFrom;
    forall h | h in some
      ensures h in all
    {
      assert h in multiset(some);
    }
  }

  predicate Less(order: seq<SortField>, i: Hit, j: Hit) {
    HasValues(order, i) && HasValues(order, j) && CompareFrom(order, 0, i, j) < 0
  }

  predicate Sorted(order: seq<SortField>, hits: seq<Hit>) {
    forall i, j | 0 <= i < j < |hits| :: Less(order, hits[i], hits[j])
  }

  // ---- sorting ----

  function Insert(order: seq<SortField>, s: seq<Hit>, h: Hit): seq<Hit> {
    if s == [] then [h] else if Less(order, h, s[0]) then [h] + s else [s[0]] + Insert(order, s[1..], h)
  }

  /** The hits in order. */
  function Sort(order: seq<SortField>, hits: seq<Hit>): seq<Hit> {
    if hits == [] then [] else Insert(order, Sort(order, hits[..|hits| - 1]), hits[|hits| - 1])
  }

  lemma {:induction false} InsertKeeps(order: seq<SortField>, s: seq<Hit>, h: Hit)
    ensures multiset(Insert(order, s, h)) == multiset(s) + multiset{h}
    ensures |Insert(order, s, h)| == |s| + 1
  {
    hide Less;
    if s != [] {
      InsertKeeps(order, s[1..], h);
      assert s == [s[0]] + s[1..];
    }
  }

  lemma {:induction false} InsertLength(order: seq<SortField>, s: seq<Hit>, h: Hit)
    ensures |Insert(order, s, h)| == |s| + 1
  {
    InsertKeeps(order, s, h);
  }

  lemma {:induction false} SortKeeps(order: seq<SortField>, hits: seq<Hit>)
    ensures multiset(Sort(order, hits)) == multiset(hits) && |Sort(order, hits)| == |hits|
  {
    if hits != [] {
      hide Insert, Less;
      var n := |hits| - 1;
      SortKeeps(order, hits[..n]);
      InsertKeeps(order, Sort(order, hits[..n]), hits[n]);
      assert hits == hits[..n] + [hits[n]];
    }
  }

  /** Told apart from every one of them. */
  predicate Apart(order: seq<SortField>, s: seq<Hit>, h: Hit) {
    HasValues(order, h) && forall k | 0 <= k < |s| :: HasValues(order, s[k]) && CompareFrom(order, 0, s[k], h) != 0
  }

  lemma {:induction false} LessTransitive(order: seq<SortField>, a: Hit, b: Hit, c: Hit)
    requires Less(order, a, b) && Less(order, b, c)
    ensures Less(order, a, c)
  {
    CompareTransitive(order, 0, a, b, c);
  }

  lemma {:induction false} InsertSorted(order: seq<SortField>, s: seq<Hit>, h: Hit)
    requires Sorted(order, s) && Apart(order, s, h)
    ensures Sorted(order, Insert(order, s, h))
  {
    hide CompareFrom;
    if s != [] {
      CompareFlips(order, 0, s[0], h);
      if Less(order, h, s[0]) {
        forall k | 1 <= k < |s|
          ensures Less(order, h, s[k])
        {
          LessTransitive(order, h, s[0], s[k]);
        }
      } else {
        var rest := Insert(order, s[1..], h);
        InsertSorted(order, s[1..], h);
        InsertKeeps(order, s[1..], h);
        forall k | 0 <= k < |rest|
          ensures Less(order, s[0], rest[k])
        {
          assert rest[k] in multiset(rest);
          assert rest[k] == h || rest[k] in s[1..];
        }
      }
    }
  }

  lemma {:induction false} SortSorts(order: seq<SortField>, hits: seq<Hit>)
    requires Strict(order, hits)
    ensures Sorted(order, Sort(order, hits))
  {
    if hits != [] {
      var n := |hits| - 1;
      assert hits == hits[..n] + [hits[n]];
      StrictPart(order, hits[..n], hits);
      SortSorts(order, hits[..n]);
      LastApart(order, hits);
      hide Strict, Less;
      SortedApart(order, hits[..n], hits[n]);
      InsertSorted(order, Sort(order, hits[..n]), hits[n]);
    }
  }

  lemma {:induction false} LastApart(order: seq<SortField>, hits: seq<Hit>)
    requires Strict(order, hits) && hits != []
    ensures Apart(order, hits[..|hits| - 1], hits[|hits| - 1])
  {
    hide CompareFrom;
    var n := |hits| - 1;
    var h := hits[n];
    assert hits == hits[..n] + [h] && h in hits;
    assert multiset(hits)[h] == multiset(hits[..n])[h] + 1;
    assert h !in hits[..n];
    forall k | 0 <= k < n
      ensures hits[k] in hits && hits[k] != h
    {
      assert hits[..n][k] in hits[..n];
    }
  }

  lemma {:induction false} SortedApart(order: seq<SortField>, hits: seq<Hit>, h: Hit)
    requires Apart(order, hits, h)
    ensures Apart(order, Sort(order, hits), h)
  {
    hide CompareFrom, Sort;
    SortKeeps(order, hits);
    var s := Sort(order, hits);
    forall k | 0 <= k < |s|
      ensures HasValues(order, s[k]) && CompareFrom(order, 0, s[k], h) != 0
    {
      assert s[k] in multiset(s);
      assert s[k] in hits;
      var i :| 0 <= i < |hits| && hits[i] == s[k];
    }
  }

  lemma {:induction false} SameFirst(order: seq<SortField>, a: seq<Hit>, b: seq<Hit>)
    requires Sorted(order, a) && Sorted(order, b) && a != [] && b != [] && a[0] in b && b[0] in a
    ensures a[0] == b[0]
  {
    hide Less;
    var i :| 0 <= i < |b| && b[i] == a[0];
    var j :| 0 <= j < |a| && a[j] == b[0];
    if i > 0 && j > 0 {
      SameOne(order, a[0], b[0]);
    }
  }

  lemma {:induction false} WithoutFirst(a: seq<Hit>)
    requires a != []
    ensures multiset(a[1..]) == multiset(a) - multiset{a[0]}
  {
    assert a == [a[0]] + a[1..];
  }

  /** There is one way to sort: a sorted sequence is determined by its hits. */
  lemma {:induction false} SortedUnique(order: seq<SortField>, a: seq<Hit>, b: seq<Hit>)
    requires Sorted(order, a) && Sorted(order, b) && multiset(a) == multiset(b)
    ensures a == b
  {
    assert |a| == |multiset(a)| == |multiset(b)| == |b|;
    if a != [] {
      assert a[0] in multiset(b) && b[0] in multiset(a);
      SameFirst(order, a, b);
      WithoutFirst(a);
      WithoutFirst(b);
      TailSorted(order, a);
      TailSorted(order, b);
      hide *;
      SortedUnique(order, a[1..], b[1..]);
      assert a == [a[0]] + a[1..] && b == [b[0]] + b[1..];
    }
  }

  lemma {:induction false} TailSorted(order: seq<SortField>, a: seq<Hit>)
    requires Sorted(order, a) && a != []
    ensures Sorted(order, a[1..])
  {
    hide Less;
  }

  lemma {:induction false} SameOne(order: seq<SortField>, x: Hit, y: Hit)
    ensures !(Less(order, x, y) && Less(order, y, x))
  {
    if Less(order, x, y) {
      CompareFlips(order, 0, x, y);
    }
  }

  // ---- ranks ----

  /** How many hits come before `h`. */
  ghost function Rank(order: seq<SortField>, hits: seq<Hit>, h: Hit): nat {
    if hits == [] then 0 else Rank(order, hits[1..], h) + (if Before(order, hits[0], h) then 1 else 0)
  }

  lemma {:induction false} RankSnoc(order: seq<SortField>, hits: seq<Hit>, g: Hit, h: Hit)
    ensures Rank(order, hits + [g], h) == Rank(order, hits, h) + (if Before(order, g, h) then 1 else 0)
  {
    hide Before;
    if hits == [] {
      assert Rank(order, [], h) == 0 && [g][1..] == [];
    } else {
      RankSnoc(order, hits[1..], g, h);
      assert (hits + [g])[1..] == hits[1..] + [g];
    }
  }

  lemma {:induction false} RankInsert(order: seq<SortField>, s: seq<Hit>, g: Hit, h: Hit)
    ensures Rank(order, Insert(order, s, g), h) == Rank(order, s, h) + (if Before(order, g, h) then 1 else 0)
  {
    hide Before, Less;
    if s == [] {
      assert Rank(order, [], h) == 0 && [g][1..] == [];
    } else if Less(order, g, s[0]) {
      assert ([g] + s)[1..] == s;
    } else {
      RankInsert(order, s[1..], g, h);
      assert ([s[0]] + Insert(order, s[1..], g))[1..] == Insert(order, s[1..], g);
    }
  }

  /** Sorting changes no rank. */
  lemma {:induction false} RankSort(order: seq<SortField>, hits: seq<Hit>, h: Hit)
    ensures Rank(order, Sort(order, hits), h) == Rank(order, hits, h)
  {
    hide Before, Insert;
    if hits != [] {
      var n := |hits| - 1;
      RankSort(order, hits[..n], h);
      RankInsert(order, Sort(order, hits[..n]), hits[n], h);
      RankSnoc(order, hits[..n], hits[n], h);
      assert hits == hits[..n] + [hits[n]];
    }
  }

  /** At place `m` of a sorted sequence is the hit with rank `m`. */
  lemma {:induction false} RankSorted(order: seq<SortField>, s: seq<Hit>, m: nat)
    requires Sorted(order, s) && m < |s| && forall k | 0 <= k < |s| :: HasValues(order, s[k])
    ensures Rank(order, s, s[m]) == m
  {
    LessIsBefore(order, s[0], s[m]);
    TailSorted(order, s);
    if m > 0 {
      RankSorted(order, s[1..], m - 1);
    } else {
      SameOne(order, s[0], s[0]);
      forall k | 0 <= k < |s[1..]|
        ensures !Before(order, s[1..][k], s[0])
      {
        assert Less(order, s[0], s[k + 1]);
        SameOne(order, s[0], s[k + 1]);
        LessIsBefore(order, s[k + 1], s[0]);
      }
      hide Before, Less, Sorted;
      NoneBefore(order, s[1..], s[0]);
    }
  }

  lemma {:induction false} NoneBefore(order: seq<SortField>, s: seq<Hit>, h: Hit)
    requires forall k | 0 <= k < |s| :: !Before(order, s[k], h)
    ensures Rank(order, s, h) == 0
  {
    hide Before;
    if s != [] {
      NoneBefore(order, s[1..], h);
    }
  }
}
