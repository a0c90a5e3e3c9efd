/** Pages of an alias for a request without sort fields. Every index returns its hits by hit number, but
    the alias does not sort what it gathers. */
module UnsortedPages {
  import opened Options
  import opened Ranking
  import opened Paging

  // ---- what comes back ----

  /** The hits of all indexes one after the other, in the order of arrival. */
  function Listed(target: Target): seq<Hit>
    decreases target
  {
    match target
    case Index(hits) => Sort([], hits)
    case Failing => []
    case Alias(targets) => ListedOf(targets, |targets|)
  }

  function ListedOf(targets: seq<Target>, n: nat): seq<Hit>
    requires n <= |targets|
    decreases targets, n
  {
    if n == 0 then [] else ListedOf(targets, n - 1) + Listed(targets[n - 1])
  }

  lemma {:induction false} FirstOfConcat(g: seq<Hit>, l: seq<Hit>, b: seq<Hit>, n: nat)
    requires Cut(g, 0, n) == Cut(l, 0, n)
    ensures Cut(g + Cut(b, 0, n), 0, n) == Cut(l + b, 0, n)
  {
    assert g[0..] == g && l[0..] == l && b[0..] == b;
    assert (l + b)[0..] == l + b;
    var c := g + Cut(b, 0, n);
    assert c[0..] == c;
    if |l| >= n {
      assert |g| >= n && g[..n] == l[..n];
      assert (l + b)[..n] == l[..n] && c[..n] == g[..n];
    } else {
      assert g == l;
    }
  }

  lemma {:induction false} CutOfFirst(a: seq<Hit>, from: nat, size: nat)
    ensures Cut(Cut(a, 0, from + size), from, size) == Cut(a, from, size)
  {
    assert a[0..] == a;
    if |a| > from + size {
      assert a[..from + size][from..] == a[from..][..size];
    }
  }

  lemma {:induction false} NothingListed(target: Target)
    requires !Answers(target)
    ensures Listed(target) == []
    decreases target
  {
    if target.Alias? && |target.targets| == 1 {
      NothingListed(target.targets[0]);
      assert ListedOf(target.targets, 0) == [];
    }
  }

  /** The page is cut from the hits as they come in. */
  lemma {:induction false} UnsortedPage(target: Target, from: nat, size: nat)
    requires size > 0
    ensures Answers(target) <==> Search([], target, from, size).Success?
    ensures Answers(target) ==> Search([], target, from, size) == Success(Cut(Listed(target), from, size))
    decreases target
  {
    hide Sort, Cut;
    if target.Alias? && target.targets != [] {
      var targets := target.targets;
      SearchAlias([], targets, from, size);
      if |targets| == 1 {
        UnsortedPage(targets[0], from, size);
        assert ListedOf(targets, 1) == ListedOf(targets, 0) + Listed(targets[0]) == Listed(targets[0]);
      } else {
        GatherUnsorted(targets, |targets|, from + size);
        var gathered := Gather([], targets, |targets|, from + size);
        CutOfFirst(gathered, from, size);
        CutOfFirst(Listed(target), from, size);
      }
    }
  }

  lemma {:induction false} GatherUnsorted(targets: seq<Target>, n: nat, size: nat)
    requires n <= |targets| && size > 0
    ensures Cut(Gather([], targets, n, size), 0, size) == Cut(ListedOf(targets, n), 0, size)
    decreases targets, n
  {
    hide Cut, Search;
    if n > 0 {
      var one := targets[n - 1];
      GatherUnsorted(targets, n - 1, size);
      UnsortedPage(one, 0, size);
      if Answers(one) {
        FirstOfConcat(Gather([], targets, n - 1, size), ListedOf(targets, n - 1), Listed(one), size);
      } else {
        NothingListed(one);
        assert ListedOf(targets, n - 1) + [] == ListedOf(targets, n - 1);
      }
    }
  }

  // ---- numbered hits ----

  /** As the collector of an index numbers them, from 1; without sort fields a hit has no sort values. */
  predicate NumberedHits(hits: seq<Hit>) {
    forall i | 0 <= i < |hits| :: hits[i].hitNumber == i + 1 && hits[i].sort == []
  }

  predicate Numbered(target: Target)
    decreases target
  {
    match target
    case Index(hits) => NumberedHits(hits)
    case Failing => true
    case Alias(targets) => forall i | 0 <= i < |targets| :: Numbered(targets[i])
  }

  lemma {:induction false} NumberedInOrder(hits: seq<Hit>)
    requires NumberedHits(hits)
    ensures Sort([], hits) == hits
  {
    forall i, j | 0 <= i < j < |hits|
      ensures Less([], hits[i], hits[j])
    {
    }
    forall h
      ensures multiset(hits)[h] <= 1
    {
      OnceNumbered(hits, h);
    }
    forall g, h | g in hits && h in hits && g != h
      ensures CompareFrom([], 0, g, h) != 0
    {
      var i :| 0 <= i < |hits| && hits[i] == g;
      var j :| 0 <= j < |hits| && hits[j] == h;
    }
    SortOfSorted([], hits);
  }

  lemma {:induction false} OnceNumbered(hits: seq<Hit>, h: Hit)
    requires NumberedHits(hits)
    ensures multiset(hits)[h] <= 1
    ensures h.hitNumber > |hits| ==> h !in hits
  {
    if hits != [] {
      var n := |hits| - 1;
      OnceNumbered(hits[..n], h);
      assert hits == hits[..n] + [hits[n]];
    }
  }

  lemma {:induction false} ListedIsAll(target: Target)
    requires Numbered(target)
    ensures Listed(target) == All(target)
    decreases target
  {
    match target
    case Index(hits) => NumberedInOrder(hits);
    case Failing =>
    case Alias(targets) => ListedOfIsAll(targets, |targets|);
  }

  lemma {:induction false} ListedOfIsAll(targets: seq<Target>, n: nat)
    requires n <= |targets| && forall i | 0 <= i < n :: Numbered(targets[i])
    ensures ListedOf(targets, n) == AllOf(targets, n)
    decreases targets, n
  {
    if n > 0 {
      ListedOfIsAll(targets, n - 1);
      ListedIsAll(targets[n - 1]);
    }
  }

  lemma {:induction false} NumberedArrives(target: Target, arrived: Target)
    requires Arrives(target, arrived) && Numbered(target)
    ensures Numbered(arrived)
    decreases target
  {
    if target.Alias? {
      var p :| ArriveAs(target.targets, arrived.targets, p);
      forall i | 0 <= i < |arrived.targets|
        ensures Numbered(arrived.targets[i])
      {
        NumberedArrives(target.targets[p[i]], arrived.targets[i]);
      }
    }
  }

  // ---- pages by hit number ----

  predicate Ascending(hits: seq<Hit>) {
    forall i, j | 0 <= i < j < |hits| :: hits[i].hitNumber <= hits[j].hitNumber
  }

  /** Some way to order the hits by hit number, those of different indexes with the same number in any
      order, has this page. */
  ghost predicate IsPageByNumber(hits: seq<Hit>, page: seq<Hit>, from: nat, size: nat) {
    exists s :: multiset(s) == multiset(hits) && Ascending(s) && page == Cut(s, from, size)
  }

  /** How many hits have a smaller number. */
  function Below(hits: seq<Hit>, v: nat): nat {
    if hits == [] then 0 else Below(hits[..|hits| - 1], v) + (if hits[|hits| - 1].hitNumber < v then 1 else 0)
  }

  lemma {:induction false} BelowConcat(a: seq<Hit>, b: seq<Hit>, v: nat)
    ensures Below(a + b, v) == Below(a, v) + Below(b, v)
  {
    if b == [] {
      assert a + b == a;
    } else {
      assert (a + b)[..|a + b| - 1] == a + b[..|b| - 1];
      BelowConcat(a, b[..|b| - 1], v);
    }
  }

  lemma {:induction false} BelowWithout(hits: seq<Hit>, k: nat, v: nat)
    requires k < |hits|
    ensures Below(hits, v) == Below(Without(hits, k), v) + (if hits[k].hitNumber < v then 1 else 0)
  {
    WithoutLast(hits, k);
    if k < |hits| - 1 {
      hide Without;
      BelowWithout(hits[..|hits| - 1], k, v);
    }
  }

  lemma {:induction false} BelowPermutes(a: seq<Hit>, b: seq<Hit>, v: nat)
    requires multiset(a) == multiset(b)
    ensures Below(a, v) == Below(b, v)
  {
    assert |a| == |multiset(a)| == |multiset(b)| == |b|;
    if a != [] {
      var k := LastElsewhere(a, b);
      BelowWithout(b, k, v);
      hide Without;
      BelowPermutes(a[..|a| - 1], Without(b, k), v);
    }
  }

  lemma {:induction false} BelowIsPart(hits: seq<Hit>, v: nat)
    ensures Below(hits, v) <= |hits| && Below(hits, v) <= Below(hits, v + 1)
  {
    if hits != [] {
      BelowIsPart(hits[..|hits| - 1], v);
    }
  }

  lemma {:induction false} BelowGrows(hits: seq<Hit>, v: nat, w: nat)
    requires v <= w
    ensures Below(hits, v) <= Below(hits, w)
  {
    if hits != [] {
      BelowGrows(hits[..|hits| - 1], v, w);
    }
  }

  /** Among ascending hits the smaller ones come first. */
  lemma {:induction false} BelowIff(hits: seq<Hit>, v: nat, p: nat)
    requires Ascending(hits) && p < |hits|
    ensures p < Below(hits, v) <==> hits[p].hitNumber < v
  {
    var n := |hits| - 1;
    BelowIsPart(hits[..n], v);
    if hits[n].hitNumber < v {
      AllBelow(hits, v);
    } else if p < n {
      BelowIff(hits[..n], v, p);
    }
  }

  lemma {:induction false} AllBelow(hits: seq<Hit>, v: nat)
    requires forall i | 0 <= i < |hits| :: hits[i].hitNumber < v
    ensures Below(hits, v) == |hits|
  {
    if hits != [] {
      AllBelow(hits[..|hits| - 1], v);
    }
  }

  /** The hit at `p` has the number that an ordering by number has there. */
  predicate Fits(hits: seq<Hit>, p: nat)
    requires p < |hits|
  {
    Below(hits, hits[p].hitNumber) <= p < Below(hits, hits[p].hitNumber + 1)
  }

  lemma {:induction false} PageFits(hits: seq<Hit>, from: nat, size: nat, p: nat)
    requires IsPageByNumber(hits, Cut(hits, from, size), from, size)
    requires from <= p < from + size && p < |hits|
    ensures Fits(hits, p)
  {
    var s :| multiset(s) == multiset(hits) && Ascending(s) && Cut(hits, from, size) == Cut(s, from, size);
    hide *;
    SameAtPlace(s, hits, from, size, p);
    RankFits(s, hits, p);
  }

  /** In an ordering by number, a hit stands where the smaller numbers end. */
  lemma {:induction false} RankFits(s: seq<Hit>, hits: seq<Hit>, p: nat)
    requires multiset(s) == multiset(hits) && Ascending(s) && p < |s| && p < |hits| && s[p] == hits[p]
    ensures Fits(hits, p)
  {
    hide Below, Ascending;
    var v := hits[p].hitNumber;
    BelowIff(s, v, p);
    BelowIff(s, v + 1, p);
    BelowPermutes(s, hits, v);
    BelowPermutes(s, hits, v + 1);
  }

  lemma {:induction false} SameAtPlace(s: seq<Hit>, hits: seq<Hit>, from: nat, size: nat, p: nat)
    requires multiset(s) == multiset(hits) && Cut(hits, from, size) == Cut(s, from, size)
    requires from <= p < from + size && p < |hits|
    ensures p < |s| && s[p] == hits[p]
  {
    hide Cut;
    SameEmptiness(s, hits);
    CutAt(hits, from, size, p);
    CutAt(s, from, size, p);
  }

  lemma {:induction false} CutAt(hits: seq<Hit>, from: nat, size: nat, p: nat)
    requires from <= p < from + size && p < |hits|
    ensures p - from < |Cut(hits, from, size)| && Cut(hits, from, size)[p - from] == hits[p]
  {
  }

  // ---- an ordering with a given page ----

  lemma {:induction false} AscendsFrom(h: Hit, s: seq<Hit>)
    requires Ascending(s) && forall k | 0 <= k < |s| :: h.hitNumber <= s[k].hitNumber
    ensures Ascending([h] + s)
  {
  }

  lemma {:induction false} LessByNumber(g: Hit, h: Hit)
    requires g.sort == h.sort == []
    ensures Less([], g, h) <==> g.hitNumber < h.hitNumber
  {
  }

  lemma {:induction false} InsertAscends(s: seq<Hit>, h: Hit)
    requires Ascending(s) && h.sort == [] && forall k | 0 <= k < |s| :: s[k].sort == []
    ensures Ascending(Insert([], s, h))
  {
    hide Less;
    if s != [] {
      LessByNumber(h, s[0]);
      if Less([], h, s[0]) {
        AscendsFrom(h, s);
      } else {
        InsertAscends(s[1..], h);
        InsertNotBelow(s, h);
        AscendsFrom(s[0], Insert([], s[1..], h));
      }
    }
  }

  lemma {:induction false} InsertNotBelow(s: seq<Hit>, h: Hit)
    requires Ascending(s) && s != [] && s[0].hitNumber <= h.hitNumber
    ensures forall k | 0 <= k < |Insert([], s[1..], h)| :: s[0].hitNumber <= Insert([], s[1..], h)[k].hitNumber
  {
    InsertKeeps([], s[1..], h);
    hide Insert;
    var rest := Insert([], s[1..], h);
    forall k | 0 <= k < |rest|
      ensures s[0].hitNumber <= rest[k].hitNumber
    {
      assert rest[k] in multiset(rest);
      assert rest[k] == h || rest[k] in s[1..];
    }
  }

  lemma {:induction false} SortAscends(hits: seq<Hit>)
    requires forall k | 0 <= k < |hits| :: hits[k].sort == []
    ensures Ascending(Sort([], hits))
  {
    if hits != [] {
      var n := |hits| - 1;
      SortAscends(hits[..n]);
      SortKeeps([], hits[..n]);
      var s := Sort([], hits[..n]);
      forall k | 0 <= k < |s|
        ensures s[k].sort == []
      {
        assert s[k] in multiset(s);
        assert s[k] in hits[..n];
      }
      InsertAscends(s, hits[n]);
    }
  }

  /** The part from `from` to `to`, and the rest. */
  lemma {:induction false} WindowAscends(hits: seq<Hit>, from: nat, to: nat)
    requires from <= to <= |hits| && forall p | from <= p < to :: Fits(hits, p)
    ensures Ascending(hits[from..to])
  {
    forall i, j | 0 <= i < j < to - from
      ensures hits[from..to][i].hitNumber <= hits[from..to][j].hitNumber
    {
      var v, w := hits[from + i].hitNumber, hits[from + j].hitNumber;
      assert Fits(hits, from + i) && Fits(hits, from + j);
      if w < v {
        BelowGrows(hits, w + 1, v);
      }
    }
  }

  /** The part before the window is not above it. */
  lemma {:induction false} BeforeWindow(hits: seq<Hit>, from: nat, to: nat, w: seq<Hit>, rest: seq<Hit>, i: nat, k: nat)
    requires from < to <= |hits| && w == hits[from..to] && Ascending(w) && (forall p | from <= p < to :: Fits(hits, p))
    requires Ascending(rest) && |rest| == |hits| - |w| && (forall v :: Below(rest, v) + Below(w, v) == Below(hits, v))
    requires i < from && k < |w|
    ensures rest[i].hitNumber <= w[k].hitNumber
  {
    var v := w[k].hitNumber;
    BelowIff(rest, v + 1, i);
    // the last of the window with a number up to v
    var c := Below(w, v + 1);
    BelowIsPart(w, v + 1);
    BelowIff(w, v + 1, k);
    BelowIff(w, v + 1, c - 1);
    assert Fits(hits, from + (c - 1)) && hits[from + (c - 1)] == w[c - 1];
    assert w[k].hitNumber <= w[c - 1].hitNumber;
  }

  /** The part behind the window is not below it. */
  lemma {:induction false} BehindWindow(hits: seq<Hit>, from: nat, to: nat, w: seq<Hit>, rest: seq<Hit>, i: nat, k: nat)
    requires from < to <= |hits| && w == hits[from..to] && Ascending(w) && (forall p | from <= p < to :: Fits(hits, p))
    requires Ascending(rest) && |rest| == |hits| - |w| && (forall v :: Below(rest, v) + Below(w, v) == Below(hits, v))
    requires from <= i < |rest| && k < |w|
    ensures w[k].hitNumber <= rest[i].hitNumber
  {
    var v := w[k].hitNumber;
    BelowIff(rest, v, i);
    var d := Below(w, v);
    BelowIff(w, v, k);
    BelowIff(w, v, d);
    assert Fits(hits, from + d) && hits[from + d] == w[d];
    assert w[d].hitNumber <= w[k].hitNumber;
  }

  lemma {:induction false} Splice(hits: seq<Hit>, from: nat, to: nat, rest: seq<Hit>) returns (s: seq<Hit>)
    requires from < to <= |hits| && (forall p | from <= p < to :: Fits(hits, p))
    requires Ascending(rest) && multiset(rest) == multiset(hits[..from] + hits[to..])
    ensures multiset(s) == multiset(hits) && Ascending(s) && |rest| == |hits| - (to - from)
    ensures s == rest[..from] + hits[from..to] + rest[from..]
  {
    var w := hits[from..to];
    WindowAscends(hits, from, to);
    hide Below, Fits, Ascending;
    SpliceParts(hits, from, to, w, rest);
    forall v: nat
      ensures Below(rest, v) + Below(w, v) == Below(hits, v)
    {
      BelowPermutes(rest + w, hits, v);
      BelowConcat(rest, w, v);
    }
    s := rest[..from] + w + rest[from..];
    SpliceAscends(hits, from, to, w, rest);
  }

  lemma {:induction false} SpliceParts(hits: seq<Hit>, from: nat, to: nat, w: seq<Hit>, rest: seq<Hit>)
    requires from < to <= |hits| && w == hits[from..to] && multiset(rest) == multiset(hits[..from] + hits[to..])
    ensures |rest| == |hits| - |w| && multiset(rest + w) == multiset(hits)
    ensures multiset(rest[..from] + w + rest[from..]) == multiset(hits)
  {
    assert |rest| == |multiset(rest)| == |multiset(hits[..from] + hits[to..])| == |hits| - |w|;
    assert hits == hits[..from] + w + hits[to..];
    assert rest == rest[..from] + rest[from..];
  }

  lemma {:induction false} SpliceAscends(hits: seq<Hit>, from: nat, to: nat, w: seq<Hit>, rest: seq<Hit>)
    requires from < to <= |hits| && w == hits[from..to] && Ascending(w) && (forall p | from <= p < to :: Fits(hits, p))
    requires Ascending(rest) && |rest| == |hits| - |w| && (forall v :: Below(rest, v) + Below(w, v) == Below(hits, v))
    ensures Ascending(rest[..from] + w + rest[from..])
  {
    var s := rest[..from] + w + rest[from..];
    var n := |w|;
    hide Below, Fits;
    forall i, j | 0 <= i < j < |s|
      ensures s[i].hitNumber <= s[j].hitNumber
    {
      if i < from && from <= j < from + n {
        BeforeWindow(hits, from, to, w, rest, i, j - from);
      } else if from <= i < from + n && j >= from + n {
        BehindWindow(hits, from, to, w, rest, j - n, i - from);
      }
    }
  }

  /** A page of hits in the order of arrival is one by hit number exactly when each of its hits has the
      number that belongs at its position. */
  lemma {:induction false} PageByNumberIff(hits: seq<Hit>, from: nat, size: nat)
    requires size > 0 && forall k | 0 <= k < |hits| :: hits[k].sort == []
    ensures IsPageByNumber(hits, Cut(hits, from, size), from, size)
       <==> forall p | from <= p < from + size && p < |hits| :: Fits(hits, p)
  {
    if IsPageByNumber(hits, Cut(hits, from, size), from, size) {
      forall p | from <= p < from + size && p < |hits|
        ensures Fits(hits, p)
      {
        PageFits(hits, from, size, p);
      }
    }
    if forall p | from <= p < from + size && p < |hits| :: Fits(hits, p) {
      OrderingExists(hits, from, size);
    }
  }

  lemma {:induction false} OrderingExists(hits: seq<Hit>, from: nat, size: nat)
    requires size > 0 && (forall k | 0 <= k < |hits| :: hits[k].sort == [])
    requires forall p | from <= p < from + size && p < |hits| :: Fits(hits, p)
    ensures IsPageByNumber(hits, Cut(hits, from, size), from, size)
  {
    hide Fits, Sort;
    if from < |hits| {
      var to := if |hits| > from + size then from + size else |hits|;
      var others := hits[..from] + hits[to..];
      SortAscends(others);
      SortKeeps([], others);
      var rest := Sort([], others);
      var s := Splice(hits, from, to, rest);
      assert s[from..to] == hits[from..to];
      SameCut(hits, s, from, size, to);
    } else {
      SortAscends(hits);
      SortKeeps([], hits);
      var s := Sort([], hits);
      assert Cut(s, from, size) == [] == Cut(hits, from, size);
    }
  }

  lemma {:induction false} SameCut(a: seq<Hit>, b: seq<Hit>, from: nat, size: nat, to: nat)
    requires |a| == |b| && from < |a| && to == (if |a| > from + size then from + size else |a|) && a[from..to] == b[from..to]
    ensures Cut(a, from, size) == Cut(b, from, size)
  {
    assert Cut(a, from, size) == a[from..to] && Cut(b, from, size) == b[from..to];
  }

  // ---- in terms of hit counts ----

  /** How many hits each index has, in the order of arrival. */
  function Counts(target: Target): seq<nat>
    decreases target
  {
    match target
    case Index(hits) => [|hits|]
    case Failing => []
    case Alias(targets) => CountsOf(targets, |targets|)
  }

  function CountsOf(targets: seq<Target>, n: nat): seq<nat>
    requires n <= |targets|
    decreases targets, n
  {
    if n == 0 then [] else CountsOf(targets, n - 1) + Counts(targets[n - 1])
  }

  function Total(counts: seq<nat>): nat {
    if counts == [] then 0 else Total(counts[..|counts| - 1]) + counts[|counts| - 1]
  }

  /** How many hits have a number up to `v`. */
  function NumberedUpTo(counts: seq<nat>, v: nat): nat {
    if counts == [] then 0 else NumberedUpTo(counts[..|counts| - 1], v) + Min(v, counts[|counts| - 1])
  }

  /** The number of the hit at position `p`, counting the indexes one after the other. */
  function NumberAt(counts: seq<nat>, p: nat): nat
    requires p < Total(counts)
    ensures NumberAt(counts, p) > 0
  {
    var before := Total(counts[..|counts| - 1]);
    if p < before then NumberAt(counts[..|counts| - 1], p) else p - before + 1
  }

  /** As many hits as there are positions before have smaller numbers, but for hits of the same number. */
  predicate InPlace(counts: seq<nat>, p: nat)
    requires p < Total(counts)
  {
    NumberedUpTo(counts, NumberAt(counts, p) - 1) <= p < NumberedUpTo(counts, NumberAt(counts, p))
  }

  /** The hits are those that the counts describe. */
  ghost predicate Described(hits: seq<Hit>, counts: seq<nat>) {
    && |hits| == Total(counts) && (forall k | 0 <= k < |hits| :: hits[k].sort == [])
    && (forall p | 0 <= p < |hits| :: hits[p].hitNumber == NumberAt(counts, p))
    && (forall v: nat :: Below(hits, v + 1) == NumberedUpTo(counts, v))
  }

  lemma {:induction false} NothingDescribed()
    ensures Described([], [])
  {
  }

  lemma {:induction false} DescribedIndex(hits: seq<Hit>)
    requires NumberedHits(hits)
    ensures Described(hits, [|hits|])
  {
    var counts := [|hits|];
    assert counts[..0] == [] && Total(counts) == |hits|;
    forall v: nat
      ensures Below(hits, v + 1) == NumberedUpTo(counts, v)
    {
      BelowNumbered(hits, v);
      assert NumberedUpTo(counts, v) == Min(v, |hits|);
    }
  }

  lemma {:induction false} BelowNumbered(hits: seq<Hit>, v: nat)
    requires NumberedHits(hits)
    ensures Below(hits, v + 1) == Min(v, |hits|)
  {
    if hits != [] {
      BelowNumbered(hits[..|hits| - 1], v);
    }
  }

  lemma {:induction false} TotalConcat(a: seq<nat>, b: seq<nat>)
    ensures Total(a + b) == Total(a) + Total(b)
  {
    if b == [] {
      assert a + b == a;
    } else {
      assert (a + b)[..|a + b| - 1] == a + b[..|b| - 1];
      TotalConcat(a, b[..|b| - 1]);
    }
  }

  lemma {:induction false} UpToConcat(a: seq<nat>, b: seq<nat>, v: nat)
    ensures NumberedUpTo(a + b, v) == NumberedUpTo(a, v) + NumberedUpTo(b, v)
  {
    if b == [] {
      assert a + b == a;
    } else {
      assert (a + b)[..|a + b| - 1] == a + b[..|b| - 1];
      UpToConcat(a, b[..|b| - 1], v);
    }
  }

  lemma {:induction false} AtConcat(a: seq<nat>, b: seq<nat>, p: nat)
    requires p < Total(a) + Total(b)
    ensures p < Total(a + b)
    ensures NumberAt(a + b, p) == if p < Total(a) then NumberAt(a, p) else NumberAt(b, p - Total(a))
  {
    TotalConcat(a, b);
    if b == [] {
      assert a + b == a;
    } else {
      var m := |b| - 1;
      assert (a + b)[..|a + b| - 1] == a + b[..m];
      TotalConcat(a, b[..m]);
      if p < Total(a) + Total(b[..m]) {
        AtConcat(a, b[..m], p);
      }
    }
  }

  lemma {:induction false} DescribedConcat(x: seq<Hit>, a: seq<nat>, y: seq<Hit>, b: seq<nat>)
    requires Described(x, a) && Described(y, b)
    ensures Described(x + y, a + b)
  {
    hide Below, NumberedUpTo, NumberAt, Total;
    TotalConcat(a, b);
    forall p | 0 <= p < |x + y|
      ensures (x + y)[p].hitNumber == NumberAt(a + b, p)
    {
      AtConcat(a, b, p);
    }
    forall v: nat
      ensures Below(x + y, v + 1) == NumberedUpTo(a + b, v)
    {
      BelowConcat(x, y, v + 1);
      UpToConcat(a, b, v);
    }
  }

  lemma {:induction false} DescribedByCounts(target: Target)
    requires Numbered(target)
    ensures Described(All(target), Counts(target))
    decreases target
  {
    hide Described;
    match target
    case Index(hits) => DescribedIndex(hits);
    case Failing => NothingDescribed();
    case Alias(targets) => DescribedByCountsOf(targets, |targets|);
  }

  lemma {:induction false} DescribedByCountsOf(targets: seq<Target>, n: nat)
    requires n <= |targets| && forall i | 0 <= i < n :: Numbered(targets[i])
    ensures Described(AllOf(targets, n), CountsOf(targets, n))
    decreases targets, n
  {
    hide Described;
    if n > 0 {
      DescribedByCountsOf(targets, n - 1);
      DescribedByCounts(targets[n - 1]);
      DescribedConcat(AllOf(targets, n - 1), CountsOf(targets, n - 1), All(targets[n - 1]), Counts(targets[n - 1]));
    } else {
      NothingDescribed();
    }
  }

  lemma {:induction false} FitsIffInPlace(hits: seq<Hit>, counts: seq<nat>, p: nat)
    requires Described(hits, counts) && p < |hits|
    ensures p < Total(counts) && (Fits(hits, p) <==> InPlace(counts, p))
  {
    hide Below, NumberedUpTo, NumberAt, Total;
    var v := NumberAt(counts, p) - 1;
    assert Below(hits, v + 1) == NumberedUpTo(counts, v) && Below(hits, v + 2) == NumberedUpTo(counts, v + 1);
  }

  lemma {:induction false} SamePages(a: seq<Hit>, b: seq<Hit>, page: seq<Hit>, from: nat, size: nat)
    requires multiset(a) == multiset(b)
    ensures IsPageByNumber(a, page, from, size) <==> IsPageByNumber(b, page, from, size)
  {
    hide Cut, Ascending;
  }

  /** Without sort fields an alias returns positions From to From+Size of the hits of its indexes, one
      index after the other as they answer. That is a page of the union by hit number if and only if
      each of these positions has the number that belongs there, which the hit counts decide. */
  lemma {:induction false} UnsortedPageIff(target: Target, arrived: Target, from: nat, size: nat)
    requires size > 0 && Numbered(target) && Arrives(target, arrived)
    ensures Answers(target) <==> Search([], arrived, from, size).Success?
    ensures Answers(target) ==> Search([], arrived, from, size) == Success(Cut(All(arrived), from, size))
    ensures |All(target)| == Total(Counts(arrived))
    ensures IsPageByNumber(All(target), Cut(All(arrived), from, size), from, size)
       <==> forall p | from <= p < from + size && p < |All(target)| :: InPlace(Counts(arrived), p)
  {
    hide *;
    SameUnion(target, arrived);
    SameEmptiness(All(target), All(arrived));
    NumberedArrives(target, arrived);
    UnsortedPage(arrived, from, size);
    ListedIsAll(arrived);
    DescribedByCounts(arrived);
    DescribedParts(All(arrived), Counts(arrived));
    SamePages(All(target), All(arrived), Cut(All(arrived), from, size), from, size);
    PageByNumberIff(All(arrived), from, size);
    forall p | from <= p < from + size && p < |All(arrived)|
      ensures p < Total(Counts(arrived)) && (Fits(All(arrived), p) <==> InPlace(Counts(arrived), p))
    {
      FitsIffInPlace(All(arrived), Counts(arrived), p);
    }
  }

  lemma {:induction false} DescribedParts(hits: seq<Hit>, counts: seq<nat>)
    requires Described(hits, counts)
    ensures |hits| == Total(counts) && forall k | 0 <= k < |hits| :: hits[k].sort == []
  {
  }

  /** Two indexes of two hits each, and the first page of size 2: both hits of the index that answers
      first, although the other one's first hit has number 1 as well. */
  lemma {:induction false} WithoutSortFields()
    ensures
      var a, c := Hit("a", 0.0, [], 1), Hit("b", 0.0, [], 2);
      var b, d := Hit("c", 0.0, [], 1), Hit("d", 0.0, [], 2);
      var target := Alias([Index([a, c]), Index([b, d])]);
      && Search([], target, 0, 2) == Success([a, c])
      && !IsPageByNumber(All(target), [a, c], 0, 2)
  {
    var a, c := Hit("a", 0.0, [], 1), Hit("b", 0.0, [], 2);
    var b, d := Hit("c", 0.0, [], 1), Hit("d", 0.0, [], 2);
    FirstTwoOfFour([a, c], [b, d]);
  }

  lemma {:induction false} FirstTwoOfFour(x: seq<Hit>, y: seq<Hit>)
    requires |x| == |y| == 2 && NumberedHits(x) && NumberedHits(y)
    ensures
      var target := Alias([Index(x), Index(y)]);
      Search([], target, 0, 2) == Success(x) && !IsPageByNumber(All(target), x, 0, 2)
  {
    hide *;
    var target := Alias([Index(x), Index(y)]);
    TwoAndTwo(x, y);
    ArrivesItself(target);
    FirstTwo(x, y);
    UnsortedPageIff(target, target, 0, 2);
  }

  lemma {:induction false} FirstTwo(x: seq<Hit>, y: seq<Hit>)
    requires |x| == |y| == 2
    ensures Cut(x + y, 0, 2) == x
  {
    assert (x + y)[0..] == x + y;
  }

  lemma {:induction false} TwoAndTwo(x: seq<Hit>, y: seq<Hit>)
    requires |x| == |y| == 2 && NumberedHits(x) && NumberedHits(y)
    ensures
      var target := Alias([Index(x), Index(y)]);
      && Numbered(target) && Answers(target) && All(target) == x + y && |All(target)| == 4
      && Total(Counts(target)) == 4 && !InPlace(Counts(target), 1)
  {
    var targets := [Index(x), Index(y)];
    hide InPlace, NumberedHits;
    assert AllOf(targets, 0) == [] && AllOf(targets, 1) == [] + x == x && AllOf(targets, 2) == x + y;
    assert CountsOf(targets, 0) == [] && CountsOf(targets, 1) == [] + [2] == [2];
    assert CountsOf(targets, 2) == [2] + [2] == [2, 2];
    SecondNotInPlace();
  }

  lemma {:induction false} SecondNotInPlace()
    ensures Total([2, 2]) == 4 && !InPlace([2, 2], 1)
  {
    var one: seq<nat>, counts: seq<nat> := [2], [2, 2];
    assert one[..0] == [] && counts[..1] == one;
    assert Total(one) == 2 && NumberAt(one, 1) == 2 && NumberedUpTo(one, 1) == 1;
    assert Total(counts) == 4 && NumberAt(counts, 1) == 2 && NumberedUpTo(counts, 1) == 2;
  }

  /** The targets may answer in their own order. */
  lemma {:induction false} ArrivesItself(target: Target)
    ensures Arrives(target, target)
    decreases target
  {
    if target.Alias? {
      var targets := target.targets;
      var p := Iota(|targets|);
      forall i | 0 <= i < |p|
        ensures Arrives(targets[p[i]], targets[i])
      {
        ArrivesItself(targets[i]);
      }
      assert ArriveAs(targets, targets, p);
    }
  }
}
