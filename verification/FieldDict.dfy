/** The field dictionary of a snapshot: a heap of cursors over the segments' dictionaries. */
module FieldDict {
  import opened Options
  import opened Uvarint

  datatype DictEntry = DictEntry(term: Bytes, count: nat)

  /** A cursor with its current entry first; an exhausted one is not kept. */
  type Cursor = seq<DictEntry>

  /** A segment's dictionary lists each of its terms once, in byte order. */
  predicate Ascending(c: Cursor) {
    forall i, j | 0 <= i < j < |c| :: LexLess(c[i].term, c[j].term)
  }

  predicate CursorsOk(cursors: seq<Cursor>) {
    forall k | 0 <= k < |cursors| :: cursors[k] != [] && Ascending(cursors[k])
  }

  // ---- the order of terms ----

  /** `a` does not come after `b`. */
  predicate NotAfter(a: Bytes, b: Bytes) { !LexLess(b, a) }

  lemma {:induction false} NotAfterTransitive(a: Bytes, b: Bytes, c: Bytes)
    requires NotAfter(a, b) && NotAfter(b, c)
    ensures NotAfter(a, c)
  {
    LexTotal(a, b);
    LexTotal(b, c);
    if LexLess(c, a) {
      if LexLess(a, b) {
        LexTransitive(c, a, b);
      }
    }
  }

  // ---- what is left, whatever the order of the cursors ----

  function CountIn(c: Cursor, term: Bytes): nat {
    if c == [] then 0 else (if c[0].term == term then c[0].count else 0) + CountIn(c[1..], term)
  }

  /** The sum of a term's counts over all cursors. */
  function Count(cursors: seq<Cursor>, term: Bytes): nat {
    if cursors == [] then 0 else
      Count(cursors[..|cursors| - 1], term) + CountIn(cursors[|cursors| - 1], term)
  }

  predicate ListedIn(c: Cursor, term: Bytes) {
    exists i | 0 <= i < |c| :: c[i].term == term
  }

  /** Some cursor still has the term. */
  predicate Listed(cursors: seq<Cursor>, term: Bytes) {
    exists k | 0 <= k < |cursors| :: ListedIn(cursors[k], term)
  }

  function Size(cursors: seq<Cursor>): nat {
    if cursors == [] then 0 else Size(cursors[..|cursors| - 1]) + |cursors[|cursors| - 1]|
  }

  lemma {:induction false} ReplaceOne(cursors: seq<Cursor>, k: nat, c: Cursor, term: Bytes)
    requires k < |cursors|
    ensures Count(cursors[k := c], term) + CountIn(cursors[k], term) == Count(cursors, term) + CountIn(c, term)
    ensures Size(cursors[k := c]) + |cursors[k]| == Size(cursors) + |c|
  {
    var n := |cursors| - 1;
    if k < n {
      ReplaceOne(cursors[..n], k, c, term);
      assert cursors[k := c][..n] == cursors[..n][k := c];
    } else {
      assert cursors[k := c][..n] == cursors[..n];
    }
  }

  /** The cursors are the same up to their order. */
  ghost predicate SameCursors(a: seq<Cursor>, b: seq<Cursor>) {
    && |a| == |b| && Size(a) == Size(b) && (forall term :: Count(a, term) == Count(b, term))
    && (forall term :: Listed(a, term) <==> Listed(b, term))
    && (CursorsOk(a) <==> CursorsOk(b))
  }

  function Swap(c: seq<Cursor>, i: nat, j: nat): seq<Cursor>
    requires i < |c| && j < |c|
  {
    c[i := c[j]][j := c[i]]
  }

  lemma {:induction false} SwapSums(c: seq<Cursor>, i: nat, j: nat, term: Bytes)
    requires i < |c| && j < |c|
    ensures Count(c, term) == Count(Swap(c, i, j), term) && Size(c) == Size(Swap(c, i, j))
  {
    ReplaceOne(c, i, c[j], term);
    ReplaceOne(c[i := c[j]], j, c[i], term);
  }

  lemma {:induction false} SameMembers(a: seq<Cursor>, b: seq<Cursor>)
    requires forall k | 0 <= k < |a| :: a[k] in b
    requires forall k | 0 <= k < |b| :: b[k] in a
    ensures CursorsOk(a) <==> CursorsOk(b)
    ensures forall term :: Listed(a, term) <==> Listed(b, term)
  {
    forall term
      ensures Listed(a, term) <==> Listed(b, term)
    {
      ListedMore(a, b, term);
      ListedMore(b, a, term);
    }
    OkMore(a, b);
    OkMore(b, a);
  }

  lemma {:induction false} OkMore(a: seq<Cursor>, b: seq<Cursor>)
    requires forall k | 0 <= k < |b| :: b[k] in a
    ensures CursorsOk(a) ==> CursorsOk(b)
  {
    hide Ascending;
  }

  lemma {:induction false} ListedMore(a: seq<Cursor>, b: seq<Cursor>, term: Bytes)
    requires forall k | 0 <= k < |a| :: a[k] in b
    ensures Listed(a, term) ==> Listed(b, term)
  {
    hide ListedIn;
    if Listed(a, term) {
      var k :| 0 <= k < |a| && ListedIn(a[k], term);
      var l :| 0 <= l < |b| && b[l] == a[k];
    }
  }

  lemma {:induction false} SwapSame(c: seq<Cursor>, i: nat, j: nat)
    requires i < |c| && j < |c|
    ensures SameCursors(c, Swap(c, i, j))
  {
    var d := Swap(c, i, j);
    hide Count, Size, Listed, CursorsOk;
    forall term
      ensures Count(c, term) == Count(d, term)
    {
      SwapSums(c, i, j, term);
    }
    SwapSums(c, i, j, []);
    assert d[i] == c[j] && d[j] == c[i] && forall k | 0 <= k < |c| && k != i && k != j :: d[k] == c[k];
    SameMembers(c, d);
  }

  // ---- the heap ----

  function Parent(k: nat): nat
    requires k > 0
  {
    (k - 1) / 2
  }

  predicate InOrder(c: seq<Cursor>, i: nat, k: nat)
    requires i < |c| && k < |c|
  {
    c[i] != [] && c[k] != [] && NotAfter(c[i][0].term, c[k][0].term)
  }

  /** Parents from `lo` on, but for `hole`, are not after their children among the first `n`. */
  ghost predicate HeapBut(c: seq<Cursor>, n: nat, lo: nat, hole: nat) {
    n <= |c| && forall k | 0 < k < n && Parent(k) >= lo && Parent(k) != hole :: InOrder(c, Parent(k), k)
  }

  ghost predicate Heap(c: seq<Cursor>, n: nat, lo: nat) {
    n <= |c| && forall k | 0 < k < n && Parent(k) >= lo :: InOrder(c, Parent(k), k)
  }

  lemma {:induction false} RootIsLeast(c: seq<Cursor>, k: nat)
    requires Heap(c, |c|, 0) && k < |c| && CursorsOk(c)
    ensures NotAfter(c[0][0].term, c[k][0].term)
  {
    if k == 0 {
      LexIrreflexive(c[0][0].term);
    } else {
      RootIsLeast(c, Parent(k));
      assert InOrder(c, Parent(k), k);
      NotAfterTransitive(c[0][0].term, c[Parent(k)][0].term, c[k][0].term);
    }
  }

  /** The state of sifting down: what hangs below the hole is not before what is above it. */
  ghost predicate Sifting(c: seq<Cursor>, n: nat, lo: nat, i: nat) {
    && HeapBut(c, n, lo, i) && lo <= i < n
    && (i > lo && i > 0 && Parent(i) >= lo ==> forall k | 0 < k < n && Parent(k) == i :: InOrder(c, Parent(i), k))
  }

  lemma {:induction false} SiftStep(c: seq<Cursor>, n: nat, lo: nat, i: nat, j: nat)
    requires CursorsOk(c) && Sifting(c, n, lo, i) && i < j < n && Parent(j) == i
    requires LexLess(c[j][0].term, c[i][0].term)
    requires forall k | 0 < k < n && Parent(k) == i :: NotAfter(c[j][0].term, c[k][0].term)
    ensures Sifting(Swap(c, i, j), n, lo, j)
  {
    var d := Swap(c, i, j);
    LexAsymmetric(c[j][0].term, c[i][0].term);
    forall k | 0 < k < n && Parent(k) >= lo && Parent(k) != j
      ensures InOrder(d, Parent(k), k)
    {
      if Parent(k) == i {
        assert d[Parent(k)] == c[j];
      } else if k == i {
        assert d[k] == c[j] && InOrder(c, Parent(i), j);
      } else {
        assert InOrder(c, Parent(k), k);
      }
    }
    forall k | 0 < k < n && Parent(k) == j
      ensures InOrder(d, Parent(j), k)
    {
      assert InOrder(c, Parent(k), k);
    }
  }

  /** `down` of the heap package: the element at `i0` sinks below the smaller of its children. */
  method Down(c: seq<Cursor>, i0: nat, n: nat) returns (d: seq<Cursor>)
    requires CursorsOk(c) && i0 < n <= |c| && Heap(c, n, i0 + 1)
    ensures SameCursors(c, d) && Heap(d, n, i0) && d[n..] == c[n..]
  {
    d := c;
    var i := i0;
    StartSift(c, n, i0);
    while true
      invariant SameCursors(c, d) && Sifting(d, n, i0, i) && d[n..] == c[n..] && CursorsOk(d)
      decreases n - i
    {
      hide LexLess, SameCursors, CursorsOk;
      var j1 := 2 * i + 1;
      if j1 >= n {
        EndSift(d, n, i0, i);
        break;
      }
      NotEmptyAt(d, i);
      NotEmptyAt(d, j1);
      var j := j1;
      var j2 := j1 + 1;
      if j2 < n {
        NotEmptyAt(d, j2);
        if LexLess(d[j2][0].term, d[j1][0].term) {
          j := j2;
        }
      }
      SmallerChild(d, n, i, j);
      if !LexLess(d[j][0].term, d[i][0].term) {
        InPlace(d, n, i0, i, j);
        break;
      }
      SiftStep(d, n, i0, i, j);
      SwapSame(d, i, j);
      SameTransitive(c, d, Swap(d, i, j));
      d := Swap(d, i, j);
      i := j;
    }
  }

  lemma {:induction false} StartSift(c: seq<Cursor>, n: nat, i0: nat)
    requires i0 < n <= |c| && Heap(c, n, i0 + 1)
    ensures Sifting(c, n, i0, i0) && SameCursors(c, c)
  {
  }

  lemma {:induction false} EndSift(c: seq<Cursor>, n: nat, lo: nat, i: nat)
    requires Sifting(c, n, lo, i) && 2 * i + 1 >= n
    ensures Heap(c, n, lo)
  {
  }

  lemma {:induction false} NotEmptyAt(c: seq<Cursor>, i: nat)
    requires CursorsOk(c) && i < |c|
    ensures c[i] != []
  {
  }

  /** The chosen child is not after its sibling. */
  lemma {:induction false} SmallerChild(c: seq<Cursor>, n: nat, i: nat, j: nat)
    requires CursorsOk(c) && n <= |c| && 2 * i + 1 < n && j < n && c[2 * i + 1] != [] && (2 * i + 2 < n ==> c[2 * i + 2] != [])
    requires j == if 2 * i + 2 < n && LexLess(c[2 * i + 2][0].term, c[2 * i + 1][0].term) then 2 * i + 2 else 2 * i + 1
    ensures forall k | 0 < k < n && Parent(k) == i :: c[k] != [] && NotAfter(c[j][0].term, c[k][0].term)
  {
    var j1 := 2 * i + 1;
    LexIrreflexive(c[j][0].term);
    if j != j1 {
      LexAsymmetric(c[j][0].term, c[j1][0].term);
    }
    assert forall k | 0 < k < n && Parent(k) == i :: k == j1 || k == j1 + 1;
  }

  lemma {:induction false} InPlace(c: seq<Cursor>, n: nat, lo: nat, i: nat, j: nat)
    requires CursorsOk(c) && Sifting(c, n, lo, i) && i < |c| && j < n && c[i] != [] && c[j] != [] && !LexLess(c[j][0].term, c[i][0].term)
    requires forall k | 0 < k < n && Parent(k) == i :: c[k] != [] && NotAfter(c[j][0].term, c[k][0].term)
    ensures Heap(c, n, lo)
  {
    forall k | 0 < k < n && Parent(k) == i
      ensures InOrder(c, i, k)
    {
      NotAfterTransitive(c[i][0].term, c[j][0].term, c[k][0].term);
    }
  }

  lemma {:induction false} SameTransitive(a: seq<Cursor>, b: seq<Cursor>, c: seq<Cursor>)
    requires SameCursors(a, b) && SameCursors(b, c)
    ensures SameCursors(a, c)
    ensures CursorsOk(b) ==> CursorsOk(c)
  {
  }

  // ---- reading the dictionary ----

  lemma {:induction false} Beheaded(c: Cursor)
    requires c != [] && Ascending(c)
    ensures Ascending(c[1..])
    ensures forall term :: CountIn(c[1..], term) == if term == c[0].term then 0 else CountIn(c, term)
    ensures forall term :: ListedIn(c[1..], term) <==> ListedIn(c, term) && term != c[0].term
    ensures CountIn(c, c[0].term) == c[0].count
  {
    forall term
      ensures ListedIn(c[1..], term) <==> ListedIn(c, term) && term != c[0].term
    {
      if ListedIn(c[1..], term) {
        var i :| 0 <= i < |c[1..]| && c[1..][i].term == term;
        assert c[i + 1].term == term;
        LexAsymmetric(c[0].term, c[i + 1].term);
      }
      if ListedIn(c, term) && term != c[0].term {
        var i :| 0 <= i < |c| && c[i].term == term;
        assert c[1..][i - 1].term == term;
      }
    }
    NotListedCountsNothing(c[1..], c[0].term);
  }

  lemma {:induction false} NotListedCountsNothing(c: Cursor, term: Bytes)
    requires !ListedIn(c, term)
    ensures CountIn(c, term) == 0
  {
    if c != [] {
      assert c[0].term != term;
      assert forall i | 0 <= i < |c[1..]| :: c[1..][i] == c[i + 1];
      NotListedCountsNothing(c[1..], term);
    }
  }

  /** After the root moved on: its term counts less by its entry, nothing else changed. */
  ghost predicate Moved(was: seq<Cursor>, now: seq<Cursor>) {
    && was != [] && was[0] != [] && CursorsOk(now) && Heap(now, |now|, 0) && Size(now) < Size(was)
    && (forall term :: Count(now, term) + (if term == was[0][0].term then was[0][0].count else 0) == Count(was, term))
    && (forall term :: Listed(now, term) ==> Listed(was, term))
    && (forall term :: Listed(was, term) ==> Listed(now, term) || term == was[0][0].term)
  }

  lemma {:induction false} HeapAbove(c: seq<Cursor>, e: seq<Cursor>, n: nat)
    requires Heap(c, |c|, 0) && |e| == |c| && n <= |c| && forall k | 1 <= k < n :: e[k] == c[k]
    ensures Heap(e, n, 1)
  {
    forall k | 0 < k < n && Parent(k) >= 1
      ensures InOrder(e, Parent(k), k)
    {
      assert InOrder(c, Parent(k), k);
    }
  }

  lemma {:induction false} FixedRoot(c: seq<Cursor>, d: seq<Cursor>)
    requires CursorsOk(c) && c != [] && |c[0]| > 1 && SameCursors(c[0 := c[0][1..]], d) && Heap(d, |d|, 0)
    ensures Moved(c, d)
  {
    hide Ascending, CountIn, Count, ListedIn, Size, Heap;
    var e := c[0 := c[0][1..]];
    Beheaded(c[0]) by { AscendingAt(c, 0); }
    RootOk(c);
    forall term
      ensures Count(e, term) + (if term == c[0][0].term then c[0][0].count else 0) == Count(c, term) && Size(e) < Size(c)
    {
      ReplaceOne(c, 0, c[0][1..], term);
    }
    SizeLess(c);
    RootListed(c, e);
  }

  lemma {:induction false} AscendingAt(c: seq<Cursor>, k: nat)
    requires CursorsOk(c) && k < |c|
    ensures c[k] != [] && Ascending(c[k])
  {
  }

  lemma {:induction false} SizeLess(c: seq<Cursor>)
    requires c != [] && c[0] != []
    ensures Size(c[0 := c[0][1..]]) < Size(c)
  {
    ReplaceOne(c, 0, c[0][1..], []);
  }

  lemma {:induction false} RootOk(c: seq<Cursor>)
    requires CursorsOk(c) && c != [] && |c[0]| > 1 && Ascending(c[0][1..])
    ensures CursorsOk(c[0 := c[0][1..]])
  {
    hide Ascending;
  }

  lemma {:induction false} RootListed(c: seq<Cursor>, e: seq<Cursor>)
    requires c != [] && c[0] != [] && e == c[0 := c[0][1..]]
    requires forall term :: ListedIn(c[0][1..], term) <==> ListedIn(c[0], term) && term != c[0][0].term
    ensures forall term :: Listed(e, term) ==> Listed(c, term)
    ensures forall term :: Listed(c, term) ==> Listed(e, term) || term == c[0][0].term
  {
    hide ListedIn;
    forall term
      ensures Listed(e, term) ==> Listed(c, term)
      ensures Listed(c, term) ==> Listed(e, term) || term == c[0][0].term
    {
      if k :| 0 <= k < |e| && ListedIn(e[k], term) {
        assert ListedIn(c[k], term);
      }
      if k :| 0 <= k < |c| && ListedIn(c[k], term) && term != c[0][0].term {
        assert ListedIn(e[k], term);
      }
    }
  }

  /** Dropping the exhausted cursor, now last. */
  lemma {:induction false} PoppedRoot(c: seq<Cursor>, d: seq<Cursor>)
    requires CursorsOk(c) && c != [] && |c[0]| == 1 && SameCursors(c, d) && d[|d| - 1] == c[0]
    requires Heap(d, |d| - 1, 0)
    ensures Moved(c, d[..|d| - 1])
  {
    var n := |d| - 1;
    assert forall term :: CountIn(c[0], term) == if term == c[0][0].term then c[0][0].count else 0 by {
      assert c[0][1..] == [];
    }
    hide Ascending, CountIn, LexLess;
    forall term
      ensures Listed(d[..n], term) ==> Listed(c, term)
      ensures Listed(c, term) ==> Listed(d[..n], term) || term == c[0][0].term
    {
      if k :| 0 <= k < n && ListedIn(d[..n][k], term) {
        assert ListedIn(d[k], term);
      }
      if Listed(d, term) && term != c[0][0].term {
        var k :| 0 <= k < |d| && ListedIn(d[k], term);
        assert k < n ==> ListedIn(d[..n][k], term);
      }
    }
    assert Heap(d[..n], n, 0) by { HeapPrefix(d, n); }
  }

  lemma {:induction false} HeapPrefix(d: seq<Cursor>, n: nat)
    requires Heap(d, n, 0)
    ensures Heap(d[..n], n, 0)
  {
    forall k | 0 < k < n
      ensures InOrder(d[..n], Parent(k), k)
    {
      assert InOrder(d, Parent(k), k);
    }
  }

  /** Moves the root to its next entry and restores the heap. */
  method MoveRoot(c: seq<Cursor>) returns (d: seq<Cursor>)
    requires CursorsOk(c) && Heap(c, |c|, 0) && c != []
    ensures Moved(c, d)
  {
    hide LexLess, Count, Listed, Size, InOrder;
    NotEmptyAt(c, 0);
    if |c[0]| == 1 {
      var n := |c| - 1;
      d := Swap(c, 0, n);
      SwapSame(c, 0, n);
      assert d[n] == c[0];
      if n > 0 {
        HeapAbove(c, d, n);
        var e := Down(d, 0, n);
        assert e[n..][0] == d[n..][0];
        SameTransitive(c, d, e);
        d := e;
      }
      PoppedRoot(c, d);
      d := d[..n];
    } else {
      var e := c[0 := c[0][1..]];
      Beheaded(c[0]);
      RootOk(c);
      HeapAbove(c, e, |e|);
      d := Down(e, 0, |e|);
      FixedRoot(c, d);
    }
  }

  class IndexSnapshotFieldDict {
    var cursors: seq<Cursor>

    ghost predicate Valid()
      reads this
    {
      CursorsOk(cursors) && Heap(cursors, |cursors|, 0)
    }

    /** `heap.Init` over the segments' dictionaries that have a term. */
    constructor (dicts: seq<Cursor>)
      requires CursorsOk(dicts)
      ensures Valid() && SameCursors(dicts, cursors)
    {
      cursors := dicts;
      new;
      var n := |cursors|;
      var i: nat := n / 2;
      assert Heap(cursors, n, i);
      while i > 0
        invariant CursorsOk(cursors) && SameCursors(dicts, cursors) && Heap(cursors, n, i) && i <= n / 2 && |cursors| == n
      {
        hide LexLess, SameCursors, CursorsOk, Heap;
        i := i - 1;
        var c := Down(cursors, i, n);
        SameTransitive(dicts, cursors, c);
        SameLength(dicts, c);
        cursors := c;
      }
    }

    /** The least term left, with the sum of its counts over all segments; it is not left after. */
    method Next() returns (entry: Option<DictEntry>)
      requires Valid()
      modifies this
      ensures Valid()
      ensures entry.None? <==> old(cursors) == []
      ensures entry.None? ==> cursors == []
      ensures entry.Some? ==> IsNext(old(cursors), entry.value, cursors) && Size(cursors) < Size(old(cursors))
    {
      if |cursors| == 0 {
        return None;
      }
      ghost var start := cursors;
      NotEmptyAt(cursors, 0);
      var e := cursors[0][0];
      LeastTerm(cursors);
      var c := MoveRoot(cursors);
      FirstMove(cursors, c, e);
      cursors := c;
      while |cursors| > 0 && cursors[0][0].term == e.term
        invariant Valid() && Summing(start, e, cursors) && Size(cursors) < Size(start)
        decreases Size(cursors)
      {
        hide LexLess, Summing, Heap, Listed, Count, Size;
        c := MoveRoot(cursors);
        NextMove(start, cursors, c, e);
        e := e.(count := e.count + cursors[0][0].count);
        cursors := c;
      }
      DoneSumming(start, e, cursors);
      return Some(e);
    }
  }

  lemma {:induction false} SameLength(a: seq<Cursor>, b: seq<Cursor>)
    requires SameCursors(a, b)
    ensures |a| == |b|
  {
  }

  /** What a call returns and leaves. */
  ghost predicate IsNext(was: seq<Cursor>, e: DictEntry, now: seq<Cursor>) {
    && Listed(was, e.term) && e.count == Count(was, e.term)
    && (forall term :: Listed(was, term) ==> NotAfter(e.term, term))
    && (forall term :: Listed(now, term) <==> Listed(was, term) && term != e.term)
    && (forall term | term != e.term :: Count(now, term) == Count(was, term))
  }

  ghost predicate Summing(start: seq<Cursor>, e: DictEntry, now: seq<Cursor>) {
    && Listed(start, e.term) && (forall term :: Listed(start, term) ==> NotAfter(e.term, term))
    && e.count + Count(now, e.term) == Count(start, e.term)
    && (forall term | term != e.term :: Count(now, term) == Count(start, term))
    && (forall term :: Listed(now, term) ==> Listed(start, term))
    && (forall term :: Listed(start, term) ==> Listed(now, term) || term == e.term)
  }

  lemma {:induction false} AfterHead(c: Cursor, i: nat)
    requires Ascending(c) && i < |c|
    ensures NotAfter(c[0].term, c[i].term)
  {
    if i == 0 {
      LexIrreflexive(c[0].term);
    } else {
      LexAsymmetric(c[0].term, c[i].term);
    }
  }

  /** The root's term is the least of all. */
  lemma {:induction false} LeastTerm(c: seq<Cursor>)
    requires CursorsOk(c) && Heap(c, |c|, 0) && c != [] && c[0] != []
    ensures Listed(c, c[0][0].term) && forall term :: Listed(c, term) ==> NotAfter(c[0][0].term, term)
  {
    hide Heap, LexLess;
    assert ListedIn(c[0], c[0][0].term);
    forall term | Listed(c, term)
      ensures NotAfter(c[0][0].term, term)
    {
      var k :| 0 <= k < |c| && ListedIn(c[k], term);
      var i :| 0 <= i < |c[k]| && c[k][i].term == term;
      RootIsLeast(c, k);
      AfterHead(c[k], i);
      NotAfterTransitive(c[0][0].term, c[k][0].term, term);
    }
  }

  lemma {:induction false} FirstMove(was: seq<Cursor>, now: seq<Cursor>, e: DictEntry)
    requires Moved(was, now) && e == was[0][0]
    requires Listed(was, e.term) && forall term :: Listed(was, term) ==> NotAfter(e.term, term)
    ensures Summing(was, e, now)
  {
    hide Listed, Count, LexLess, Heap;
  }

  lemma {:induction false} NextMove(start: seq<Cursor>, was: seq<Cursor>, now: seq<Cursor>, e: DictEntry)
    requires Summing(start, e, was) && Moved(was, now) && was[0][0].term == e.term
    ensures Summing(start, e.(count := e.count + was[0][0].count), now) && Size(now) < Size(was)
    ensures CursorsOk(now) && Heap(now, |now|, 0)
  {
    hide Listed, Count, LexLess, Heap;
  }

  lemma {:induction false} DoneSumming(start: seq<Cursor>, e: DictEntry, now: seq<Cursor>)
    requires Summing(start, e, now) && CursorsOk(now) && Heap(now, |now|, 0)
    requires now == [] || (now[0] != [] && now[0][0].term != e.term)
    ensures IsNext(start, e, now)
  {
    if now != [] {
      LeastTerm(now);
      LexTotal(e.term, now[0][0].term);
      NotLeft(now, e.term, now[0][0].term);
    }
    NothingCounted(now, e.term);
  }

  lemma {:induction false} NotLeft(c: seq<Cursor>, term: Bytes, least: Bytes)
    requires (forall t :: Listed(c, t) ==> NotAfter(least, t)) && LexLess(term, least)
    ensures !Listed(c, term)
  {
  }

  lemma {:induction false} NothingCounted(c: seq<Cursor>, term: Bytes)
    requires !Listed(c, term)
    ensures Count(c, term) == 0
  {
    if c != [] {
      var n := |c| - 1;
      assert forall k | 0 <= k < n :: c[..n][k] == c[k];
      NothingCounted(c[..n], term);
      assert !ListedIn(c[n], term);
      NotListedCountsNothing(c[n], term);
    }
  }

  /** What has been read: ascending terms, each with its total count, and nothing else is gone. */
  ghost predicate Read(start: seq<Cursor>, entries: seq<DictEntry>, left: seq<Cursor>) {
    && Ascending(entries)
    && (forall i | 0 <= i < |entries| :: Listed(start, entries[i].term) && entries[i].count == Count(start, entries[i].term))
    && (forall term :: Listed(left, term) ==> Listed(start, term))
    && (forall i, term | 0 <= i < |entries| && Listed(left, term) :: LexLess(entries[i].term, term))
    && (forall term :: Listed(start, term) ==> Listed(left, term) || ListedIn(entries, term))
    && (forall term :: Listed(left, term) ==> Count(left, term) == Count(start, term))
  }

  lemma {:induction false} ReadOne(start: seq<Cursor>, entries: seq<DictEntry>, was: seq<Cursor>, e: DictEntry, now: seq<Cursor>)
    requires Read(start, entries, was) && IsNext(was, e, now)
    ensures Read(start, entries + [e], now)
  {
    hide Listed, Count, LexLess;
    var more := entries + [e];
    forall term | Listed(now, term)
      ensures LexLess(e.term, term)
    {
      LexTotal(e.term, term);
      assert NotAfter(e.term, term);
    }
    forall term | Listed(start, term)
      ensures Listed(now, term) || ListedIn(more, term)
    {
      if ListedIn(entries, term) {
        var i :| 0 <= i < |entries| && entries[i].term == term;
        assert more[i].term == term;
      }
      assert more[|entries|] == e;
    }
    forall i, term | 0 <= i < |more| && Listed(now, term)
      ensures LexLess(more[i].term, term)
    {
      assert i < |entries| ==> more[i] == entries[i];
    }
  }

  /** Read to its end, the dictionary is the union of the segments' dictionaries: ascending terms,
      each with the sum of its counts. */
  method Drain(dicts: seq<Cursor>) returns (entries: seq<DictEntry>)
    requires CursorsOk(dicts)
    ensures Ascending(entries)
    ensures forall term :: ListedIn(entries, term) <==> Listed(dicts, term)
    ensures forall i | 0 <= i < |entries| :: entries[i].count == Count(dicts, entries[i].term)
  {
    var fd := new IndexSnapshotFieldDict(dicts);
    ghost var start := fd.cursors;
    entries := [];
    while true
      invariant fd.Valid() && Read(start, entries, fd.cursors)
      decreases Size(fd.cursors)
    {
      hide Listed, Count, LexLess, CursorsOk, Heap;
      ghost var was := fd.cursors;
      var e := fd.Next();
      if e.None? {
        break;
      }
      ReadOne(start, entries, was, e.value, fd.cursors);
      entries := entries + [e.value];
    }
    assert forall i | 0 <= i < |entries| :: ListedIn(entries, entries[i].term);
  }
}
