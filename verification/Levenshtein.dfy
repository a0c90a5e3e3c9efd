/** The single-row edit distance, with and without an early exit. */
module Levenshtein {
  function Min(x: int, y: int): int { if x < y then x else y }

  function Cost(x: char, y: char): nat { if x == y then 0 else 1 }

  /** The edit distance by its recursive definition on the last characters. */
  function Distance(a: string, b: string): nat
    decreases |a| + |b|
  {
    if a == [] then |b|
    else if b == [] then |a|
    else
      var (i, j) := (|a| - 1, |b| - 1);
      Min(Min(Distance(a, b[..j]) + 1, Distance(a[..i], b) + 1), Distance(a[..i], b[..j]) + Cost(a[i], b[j]))
  }

  /** A row of the table: the distances of the prefixes of `a` to one prefix of `b`. Column 0 is
      set when the row is computed and is not read from the row above. */
  ghost predicate Row(d: seq<int>, a: string, b: string) {
    |d| > |a| && forall j | 1 <= j <= |a| :: d[j] == Distance(a[..j], b)
  }

  /** Computing row `i` in place: the columns before `j` are new, the others are still those of the
      row above. */
  ghost predicate PartRow(d: seq<int>, a: string, b: string, i: nat, j: nat) {
    && |d| > |a| && 1 <= i <= |b| && 1 <= j <= |a| + 1
    && (forall k | 0 <= k < j :: d[k] == Distance(a[..k], b[..i]))
    && (forall k | j <= k <= |a| :: d[k] == Distance(a[..k], b[..i - 1]))
  }

  lemma {:induction false} PartRowStart(d: seq<int>, a: string, b: string, i: nat)
    requires 1 <= i <= |b| && Row(d, a, b[..i - 1]) && d[0] == i
    ensures PartRow(d, a, b, i, 1)
  {
    assert a[..0] == [] && |b[..i]| == i;
  }

  lemma {:induction false} PartRowNext(d: seq<int>, a: string, b: string, i: nat, j: nat, value: int)
    requires PartRow(d, a, b, i, j) && j <= |a| && value == Distance(a[..j], b[..i])
    ensures PartRow(d[j := value], a, b, i, j + 1)
  {
    hide Distance;
  }

  /** The least of the new values so far, column 0 left out, capped. */
  ghost predicate LeastSoFar(least: int, a: string, b: string, j: nat, cap: int) {
    least <= cap && j <= |a| + 1 && (least >= cap <==> forall k | 1 <= k < j :: Distance(a[..k], b) >= cap)
  }

  lemma {:induction false} Step(a: string, b: string, i: nat, j: nat)
    requires 1 <= i <= |b| && 1 <= j <= |a|
    ensures Distance(a[..j], b[..i])
         == Min(Min(Distance(a[..j], b[..i - 1]) + 1, Distance(a[..j - 1], b[..i]) + 1),
                Distance(a[..j - 1], b[..i - 1]) + Cost(a[j - 1], b[i - 1]))
  {
    hide Distance, Min, Cost;
    OneCell(a[..j], b[..i]);
    assert a[..j][..j - 1] == a[..j - 1] && b[..i][..i - 1] == b[..i - 1];
  }

  /** One pass over the row. `rowmin` is the least of its values, column 0 left out, or `cap`. */
  method NextRow(d: array<int>, a: string, b: string, i: nat, cap: int) returns (rowmin: int)
    requires 1 <= i <= |b| && Row(d[..], a, b[..i - 1])
    modifies d
    ensures Row(d[..], a, b[..i]) && d[0] == i
    ensures LeastSoFar(rowmin, a, b[..i], |a| + 1, cap)
  {
    RowLength(d[..], a, b[..i - 1]);
    ghost var above := d[..];
    d[0] := i;
    var lastdiag := i - 1;
    rowmin := cap;
    SameRow(above, a, b[..i - 1], i);
    assert d[..] == above[0 := i];
    PartRowStart(d[..], a, b, i);
    FirstCorner(a, b, i);
    NothingYet(a, b[..i], cap);
    hide *;
    for j := 1 to |a| + 1
      invariant PartRow(d[..], a, b, i, j)
      invariant lastdiag == Distance(a[..j - 1], b[..i - 1])
      invariant LeastSoFar(rowmin, a, b[..i], j, cap)
      invariant d.Length > |a| && d[0] == i
    {
      Step(a, b, i, j);
      PartRowAt(d[..], a, b, i, j);
      ghost var before := d[..];
      var olddiag := d[j];
      var min := d[j] + 1;
      if d[j - 1] + 1 < min {
        min := d[j - 1] + 1;
      }
      var temp := if a[j - 1] == b[i - 1] then 0 else 1;
      if lastdiag + temp < min {
        min := lastdiag + temp;
      }
      MinIs(before[j] + 1, before[j - 1] + 1, lastdiag + temp, a[j - 1], b[i - 1], temp);
      LeastNext(rowmin, a, b[..i], j, cap, min);
      if min < rowmin {
        rowmin := min;
      }
      PartRowNext(before, a, b, i, j, min);
      d[j] := min;
      assert d[..] == before[j := min];
      lastdiag := olddiag;
    }
    WholeRow(d[..], a, b, i);
  }

  lemma {:induction false} RowLength(d: seq<int>, a: string, b: string)
    requires Row(d, a, b)
    ensures |d| > |a|
  {
  }

  /** Column 0 is not part of the row above. */
  lemma {:induction false} SameRow(d: seq<int>, a: string, b: string, first: int)
    requires Row(d, a, b)
    ensures Row(d[0 := first], a, b)
  {
    hide Distance;
  }

  lemma {:induction false} FirstCorner(a: string, b: string, i: nat)
    requires 1 <= i <= |b|
    ensures Distance(a[..0], b[..i - 1]) == i - 1
  {
    assert |b[..i - 1]| == i - 1 && a[..0] == [];
  }

  lemma {:induction false} NothingYet(a: string, b: string, cap: int)
    ensures LeastSoFar(cap, a, b, 1, cap)
  {
    hide Distance;
  }

  lemma {:induction false} PartRowAt(d: seq<int>, a: string, b: string, i: nat, j: nat)
    requires PartRow(d, a, b, i, j) && j <= |a|
    ensures 1 <= i <= |b| && 1 <= j < |d| && |d| > |a|
    ensures d[j - 1] == Distance(a[..j - 1], b[..i]) && d[j] == Distance(a[..j], b[..i - 1])
  {
    hide Distance;
  }

  lemma {:induction false} LeastNext(least: int, a: string, b: string, j: nat, cap: int, value: int)
    requires LeastSoFar(least, a, b, j, cap) && 1 <= j <= |a| && value == Distance(a[..j], b)
    ensures LeastSoFar(if value < least then value else least, a, b, j + 1, cap)
  {
    hide Distance;
  }

  lemma {:induction false} MinIs(above: int, before: int, diagonal: int, x: char, y: char, temp: int)
    requires temp == if x == y then 0 else 1
    ensures temp == Cost(x, y)
    ensures
      var least := if before < above then before else above;
      Min(Min(above, before), diagonal) == if diagonal < least then diagonal else least
  {
  }

  lemma {:induction false} WholeRow(d: seq<int>, a: string, b: string, i: nat)
    requires PartRow(d, a, b, i, |a| + 1)
    ensures Row(d, a, b[..i])
  {
    hide Distance;
  }

  method FirstRow(d: array<int>, a: string)
    requires d.Length > |a|
    modifies d
    ensures Row(d[..], a, []) && d[0] == old(d[0])
  {
    for i := 1 to |a| + 1
      invariant forall k | 1 <= k < i :: d[k] == Distance(a[..k], [])
      invariant d[0] == old(d[0])
    {
      d[i] := i;
    }
  }

  method LevenshteinDistance(a: string, b: string) returns (distance: int)
    ensures distance == Distance(a, b)
  {
    var d := new int[|a| + 1];
    d[0] := 0;
    FirstRow(d, a);
    for i := 1 to |b| + 1
      invariant Row(d[..], a, b[..i - 1])
      invariant d[0] == i - 1
    {
      var _ := NextRow(d, a, b, i, 0);
    }
    assert a[..|a|] == a && b[..|b|] == b;
    return d[|a|];
  }

  // ---- the early exit ----

  function Gap(a: string, b: string): int {
    if |a| < |b| then |b| - |a| else |a| - |b|
  }

  /** A row all of whose values, column 0 left out, are above the bound. */
  ghost predicate RowExceeds(a: string, b: string, max: int, i: nat) {
    1 <= i <= |b| && forall k | 1 <= k <= |a| :: Distance(a[..k], b[..i]) > max
  }

  /** Exactly when the bounded computation gives up. */
  ghost predicate GivesUp(a: string, b: string, max: int) {
    |a| - |b| > max || |b| - |a| > max || (a != [] && b != [] && exists i :: RowExceeds(a, b, max, i))
  }

  /** Gives up only when the distance is above the bound, and is exact otherwise, whatever the
      reused slice held. */
  method LevenshteinDistanceMaxReuseSlice(a: string, b: string, max: int, reused: array<int>)
    returns (distance: int, exceeded: bool, d: array<int>)
    modifies reused
    ensures exceeded <==> GivesUp(a, b, max)
    ensures exceeded ==> distance == max < Distance(a, b)
    ensures !exceeded ==> distance == Distance(a, b)
    ensures d == reused || fresh(d)
  {
    d := reused;
    var ld := Gap(a, b);
    GapBelow(a, b);
    EmptyDistance(a, b);
    hide Distance;
    if ld > max {
      return max, true, d;
    } else if |a| == 0 || |b| == 0 {
      return ld, false, d;
    }
    if d.Length < |a| + 1 {
      d := new int[|a| + 1];
    }
    FirstRow(d, a);
    for i := 1 to |b| + 1
      invariant Row(d[..], a, b[..i - 1])
      invariant NoneExceeds(a, b, max, i)
    {
      var rowmin := NextRow(d, a, b, i, max + 1);
      RowMinimum(a, b, max, i, rowmin);
      if rowmin > max {
        ExceedingRow(a, b, max, i);
        return max, true, d;
      }
    }
    assert a[..|a|] == a && b[..|b|] == b;
    return d[|a|], false, d;
  }

  lemma {:induction false} EmptyDistance(a: string, b: string)
    ensures a == [] || b == [] ==> Distance(a, b) == Gap(a, b)
  {
  }

  lemma {:induction false} RowMinimum(a: string, b: string, max: int, i: nat, rowmin: int)
    requires 1 <= i <= |b| && LeastSoFar(rowmin, a, b[..i], |a| + 1, max + 1)
    ensures rowmin > max <==> RowExceeds(a, b, max, i)
  {
    hide Distance;
  }

  ghost predicate NoneExceeds(a: string, b: string, max: int, i: nat) {
    forall r | 1 <= r < i :: !RowExceeds(a, b, max, r)
  }

  lemma {:induction false} GapBelow(a: string, b: string)
    ensures Gap(a, b) <= Distance(a, b) <= (if |a| < |b| then |b| else |a|)
    decreases |a| + |b|
  {
    EmptyDistance(a, b);
    hide Distance;
    if a != [] && b != [] {
      var (i, j) := (|a| - 1, |b| - 1);
      Cell(a[..i], a[i], b[..j], b[j], a, b);
      GapBelow(a[..i], b);
      GapBelow(a, b[..j]);
      GapBelow(a[..i], b[..j]);
    }
  }

  /** Column 0 may be left out: it is never below column 1. */
  lemma {:induction false} FirstColumn(a: string, b: string)
    requires a != [] && b != []
    ensures Distance(a[..1], b) <= |b|
  {
    GapBelow(a[..1], b);
  }

  lemma {:induction false} InRow(a: string, b: string, max: int, i: nat, k: nat)
    requires a != [] && RowExceeds(a, b, max, i) && k <= |a|
    ensures Distance(a[..k], b[..i]) > max && i > max
  {
    assert Distance(a[..1], b[..i]) > max;
    FirstColumn(a, b[..i]);
    ColumnZero(a, b, i);
    hide Distance;
  }

  /** From a row above the bound no later row gets back to it. */
  lemma {:induction false} RowsStayAbove(a: string, b: string, max: int, i: nat, r: nat, k: nat)
    requires a != [] && RowExceeds(a, b, max, i) && i <= r <= |b| && k <= |a|
    ensures Distance(a[..k], b[..r]) > max
    decreases r, k
  {
    hide Distance, RowExceeds;
    InRow(a, b, max, i, k);
    if k == 0 {
      ColumnZero(a, b, r);
    } else if r > i {
      Step(a, b, r, k);
      RowsStayAbove(a, b, max, i, r - 1, k);
      RowsStayAbove(a, b, max, i, r, k - 1);
      RowsStayAbove(a, b, max, i, r - 1, k - 1);
    }
  }

  lemma {:induction false} ColumnZero(a: string, b: string, r: nat)
    requires r <= |b|
    ensures Distance(a[..0], b[..r]) == r
  {
  }

  lemma {:induction false} ExceedingRow(a: string, b: string, max: int, i: nat)
    requires a != [] && RowExceeds(a, b, max, i)
    ensures Distance(a, b) > max
  {
    RowsStayAbove(a, b, max, i, |b|, |a|);
    assert a[..|a|] == a && b[..|b|] == b;
  }

  /** A distance within the bound is always returned exactly. */
  lemma {:induction false} WithinBoundIsExact(a: string, b: string, max: int)
    requires Distance(a, b) <= max
    ensures !GivesUp(a, b, max)
  {
    GapBelow(a, b);
    if a != [] && b != [] {
      if i :| RowExceeds(a, b, max, i) {
        ExceedingRow(a, b, max, i);
      }
    }
  }

  /** The converse fails: a distance above the bound may be returned with the flag unset. */
  lemma {:induction false} AboveBoundUnflagged()
    ensures Distance("bcx", "abc") == 2 && !GivesUp("bcx", "abc", 1)
  {
    hide Distance;
    Table();
    forall i
      ensures !RowExceeds("bcx", "abc", 1, i)
    {
      if 1 <= i <= 3 {
        LowInRow(i);
      }
    }
  }

  lemma {:induction false} LowInRow(i: nat)
    requires 1 <= i <= 3
    ensures !RowExceeds("bcx", "abc", 1, i)
  {
    hide Distance;
    Table();
    var a, b := "bcx", "abc";
    var k := if i == 3 then 2 else 1;
    assert a[..k] == (if i == 3 then "bc" else "b") && b[..i] == (if i == 1 then "a" else if i == 2 then "ab" else "abc");
    assert Distance(a[..k], b[..i]) <= 1;
  }

  lemma {:induction false} Table()
    ensures Distance("b", "a") == 1 && Distance("b", "ab") == 1 && Distance("bc", "abc") == 1 && Distance("bcx", "abc") == 2
  {
    FirstTwo();
    hide Distance;
    Cell("", 'b', "a", 'b', "b", "ab");
    Cell("b", 'c', "a", 'b', "bc", "ab");
    Cell("b", 'c', "ab", 'c', "bc", "abc");
    Cell("bc", 'x', "a", 'b', "bcx", "ab");
    Cell("bc", 'x', "ab", 'c', "bcx", "abc");
    GapBelow("bcx", "a");
    GapBelow("b", "abc");
  }

  lemma {:induction false} FirstTwo()
    ensures Distance("", "a") == 1 && Distance("", "ab") == 2 && Distance("b", "") == 1 && Distance("bc", "") == 2
    ensures Distance("b", "a") == 1 && Distance("bc", "a") == 2
  {
    Cell("", 'b', "", 'a', "b", "a");
    Cell("b", 'c', "", 'a', "bc", "a");
  }

  lemma {:induction false} Cell(a: string, x: char, b: string, y: char, aMore: string, bMore: string)
    requires aMore == a + [x] && bMore == b + [y]
    ensures Distance(aMore, bMore)
         == Min(Min(Distance(aMore, b) + 1, Distance(a, bMore) + 1), Distance(a, b) + Cost(x, y))
  {
    hide Distance, Min, Cost;
    OneCell(aMore, bMore);
    assert |aMore| - 1 == |a| && |bMore| - 1 == |b|;
    assert aMore[..|a|] == a && bMore[..|b|] == b;
  }

  lemma {:induction false} OneCell(a: string, b: string)
    requires a != [] && b != []
    ensures
      var (i, j) := (|a| - 1, |b| - 1);
      Distance(a, b) == Min(Min(Distance(a, b[..j]) + 1, Distance(a[..i], b) + 1), Distance(a[..i], b[..j]) + Cost(a[i], b[j]))
  {
  }

  // ---- what the distance means ----

  datatype Edit = Insert(at: nat, c: char) | Delete(at: nat) | Substitute(at: nat, c: char)

  predicate Applies(e: Edit, s: string) {
    if e.Insert? then e.at <= |s| else e.at < |s|
  }

  function Apply(e: Edit, s: string): string
    requires Applies(e, s)
  {
    match e
    case Insert(i, c) => s[..i] + [c] + s[i..]
    case Delete(i) => s[..i] + s[i + 1..]
    case Substitute(i, c) => s[..i] + [c] + s[i + 1..]
  }

  /** The edits, one after the other, turn `a` into `b`. */
  predicate Turns(edits: seq<Edit>, a: string, b: string) {
    if edits == [] then a == b else Applies(edits[0], a) && Turns(edits[1..], Apply(edits[0], a), b)
  }

  lemma {:induction false} ApplyBefore(e: Edit, a: string, tail: string)
    requires Applies(e, a)
    ensures Applies(e, a + tail) && Apply(e, a + tail) == Apply(e, a) + tail
  {
    assert (a + tail)[..e.at] == a[..e.at];
    if e.Insert? {
      assert (a + tail)[e.at..] == a[e.at..] + tail;
    } else {
      assert (a + tail)[e.at + 1..] == a[e.at + 1..] + tail;
    }
  }

  lemma {:induction false} AtTheEnd(b: string, c: char, d: char)
    ensures Apply(Insert(|b|, c), b) == b + [c]
    ensures Apply(Delete(|b|), b + [d]) == b
    ensures Apply(Substitute(|b|, c), b + [d]) == b + [c]
  {
  }

  lemma {:induction false} TurnsBefore(edits: seq<Edit>, a: string, b: string, tail: string)
    requires Turns(edits, a, b)
    ensures Turns(edits, a + tail, b + tail)
  {
    if edits != [] {
      var e := edits[0];
      TurnsBefore(edits[1..], Apply(e, a), b, tail);
      hide Apply, Applies;
      ApplyBefore(e, a, tail);
    }
  }

  lemma {:induction false} TurnsThen(edits: seq<Edit>, a: string, b: string, e: Edit, c: string)
    requires Turns(edits, a, b) && Applies(e, b) && Apply(e, b) == c
    ensures Turns(edits + [e], a, c)
  {
    if edits == [] {
      assert ([e] + [])[1..] == [];
      assert edits + [e] == [e];
    } else {
      TurnsThen(edits[1..], Apply(edits[0], a), b, e, c);
      assert (edits + [e])[1..] == edits[1..] + [e];
    }
  }

  /** That many edits suffice. */
  lemma {:induction false} EditsSuffice(a: string, b: string) returns (edits: seq<Edit>)
    ensures Turns(edits, a, b) && |edits| == Distance(a, b)
    decreases |a| + |b|, 1
  {
    EmptyDistance(a, b);
    hide Distance, Apply, Turns;
    if b == [] {
      edits := DeleteAll(a);
    } else {
      var j := |b| - 1;
      assert b == b[..j] + [b[j]];
      if a == [] {
        EmptyDistance(a, b[..j]);
        edits := EditsSuffice(a, b[..j]);
        AtTheEnd(b[..j], b[j], b[j]);
        TurnsThen(edits, a, b[..j], Insert(j, b[j]), b);
        edits := edits + [Insert(j, b[j])];
      } else {
        edits := EditsOfBoth(a, b);
      }
    }
  }

  lemma {:induction false} EditsOfBoth(a: string, b: string) returns (edits: seq<Edit>)
    requires a != [] && b != []
    ensures Turns(edits, a, b) && |edits| == Distance(a, b)
    decreases |a| + |b|, 0
  {
    hide Distance, Apply, Turns;
    var i, j := |a| - 1, |b| - 1;
    var x, y := a[i], b[j];
    assert a == a[..i] + [x] && b == b[..j] + [y];
    Cell(a[..i], x, b[..j], y, a, b);
    if Distance(a, b) == Distance(a, b[..j]) + 1 {
      edits := EditsSuffice(a, b[..j]);
      AtTheEnd(b[..j], y, y);
      TurnsThen(edits, a, b[..j], Insert(j, y), b);
      edits := edits + [Insert(j, y)];
    } else if Distance(a, b) == Distance(a[..i], b) + 1 {
      edits := EditsSuffice(a[..i], b);
      TurnsBefore(edits, a[..i], b, [x]);
      AtTheEnd(b, x, x);
      TurnsThen(edits, a, b + [x], Delete(j + 1), b);
      edits := edits + [Delete(j + 1)];
    } else {
      edits := EditsSuffice(a[..i], b[..j]);
      TurnsBefore(edits, a[..i], b[..j], [x]);
      if x != y {
        AtTheEnd(b[..j], y, x);
        TurnsThen(edits, a, b[..j] + [x], Substitute(j, y), b);
        edits := edits + [Substitute(j, y)];
      }
    }
  }

  lemma {:induction false} DeleteAll(a: string) returns (edits: seq<Edit>)
    ensures Turns(edits, a, []) && |edits| == |a|
  {
    if a == [] {
      edits := [];
    } else {
      edits := DeleteAll(a[1..]);
      assert Apply(Delete(0), a) == a[1..];
      edits := [Delete(0)] + edits;
    }
  }

  lemma {:induction false} Self(a: string)
    ensures Distance(a, a) == 0
  {
    if a != [] {
      Self(a[..|a| - 1]);
    }
  }

  lemma {:induction false} Symmetric(a: string, b: string)
    ensures Distance(a, b) == Distance(b, a)
    decreases |a| + |b|
  {
    if a != [] && b != [] {
      Symmetric(a[..|a| - 1], b);
      Symmetric(a, b[..|b| - 1]);
      Symmetric(a[..|a| - 1], b[..|b| - 1]);
    }
  }

  lemma {:induction false} ZeroMeansEqual(a: string, b: string)
    ensures Distance(a, b) == 0 <==> a == b
    decreases |a|
  {
    if a != [] && b != [] {
      ZeroMeansEqual(a[..|a| - 1], b[..|b| - 1]);
      assert a == a[..|a| - 1] + [a[|a| - 1]] && b == b[..|b| - 1] + [b[|b| - 1]];
    }
  }

  lemma {:induction false} Triangle(a: string, b: string, c: string)
    ensures Distance(a, c) <= Distance(a, b) + Distance(b, c)
    decreases |a| + |b| + |c|
  {
    GapBelow(a, b);
    GapBelow(b, c);
    GapBelow(a, c);
    EmptyDistance(a, b);
    EmptyDistance(b, c);
    EmptyDistance(a, c);
    hide Distance;
    if a != [] && b != [] && c != [] {
      var (i, j, k) := (|a| - 1, |b| - 1, |c| - 1);
      Cell(a[..i], a[i], b[..j], b[j], a, b);
      Cell(b[..j], b[j], c[..k], c[k], b, c);
      Cell(a[..i], a[i], c[..k], c[k], a, c);
      Triangle(a[..i], b, c);
      Triangle(a, b, c[..k]);
      Triangle(a, b[..j], c);
      Triangle(a, b[..j], c[..k]);
      Triangle(a[..i], b[..j], c);
      Triangle(a[..i], b[..j], c[..k]);
    }
  }

  lemma {:induction false} SameTail(a: string, b: string, tail: string)
    ensures Distance(a + tail, b + tail) <= Distance(a, b)
  {
    hide Distance;
    if tail == [] {
      assert a + tail == a && b + tail == b;
    } else {
      var n := |tail| - 1;
      SameTail(a, b, tail[..n]);
      assert a + tail == (a + tail[..n]) + [tail[n]] && b + tail == (b + tail[..n]) + [tail[n]];
      Cell(a + tail[..n], tail[n], b + tail[..n], tail[n], a + tail, b + tail);
    }
  }

  lemma {:induction false} OneMore(s: string, c: char)
    ensures Distance(s, s + [c]) <= 1 && Distance(s + [c], s) <= 1
  {
    Self(s);
    assert (s + [c])[..|s|] == s;
  }

  lemma {:induction false} SplitAt(s: string, i: nat)
    requires i < |s|
    ensures s == (s[..i] + [s[i]]) + s[i + 1..]
  {
  }

  /** An edit changes the string by at most one. */
  lemma {:induction false} OneEdit(e: Edit, s: string)
    requires Applies(e, s)
    ensures Distance(s, Apply(e, s)) <= 1
  {
    hide Distance;
    var head := s[..e.at];
    match e
    case Insert(i, c) =>
      OneMore(head, c);
      assert s == head + s[i..];
      SameTail(head, head + [c], s[i..]);
    case Delete(i) =>
      OneMore(head, s[i]);
      SplitAt(s, i);
      SameTail(head + [s[i]], head, s[i + 1..]);
    case Substitute(i, c) =>
      SplitAt(s, i);
      Self(head);
      Cell(head, s[i], head, c, head + [s[i]], head + [c]);
      SameTail(head + [s[i]], head + [c], s[i + 1..]);
  }

  /** No fewer do: the distance is the least number of insertions, deletions and substitutions. */
  lemma {:induction false} EditsNeeded(edits: seq<Edit>, a: string, b: string)
    requires Turns(edits, a, b)
    ensures Distance(a, b) <= |edits|
  {
    if edits == [] {
      Self(a);
    } else {
      var next := Apply(edits[0], a);
      OneEdit(edits[0], a);
      EditsNeeded(edits[1..], next, b);
      Triangle(a, next, b);
    }
  }
}
