/** Documents inside one immutable segment: which of them survive a deleted bitmap, and the
    contract of the segment plugin's `Merge` (concatenate the survivors, report the new numbers). */
module Segments {
  type DocId = string
  type Doc = string
  datatype Entry = Entry(id: DocId, doc: Doc)

  /** A segment listed by a snapshot. A missing deleted bitmap is the empty set; `file` says
      whether the segment is a persisted one, stored in the file named after `id`. */
  datatype SegmentSnapshot = SegmentSnapshot(id: nat, docs: seq<Entry>, file: bool, deleted: set<nat>)
  {
    predicate InRange() { Below(deleted, |docs|) }

    function LiveSize(): int { |docs| - |deleted| }

    function LiveNumbers(): set<nat> { set d: nat | d < |docs| && d !in deleted }

    /** What every segment of a root satisfies. */
    predicate Ok() { InRange() && LiveSize() > 0 }

    function Contents(): seq<Entry> { Live(docs, deleted) }
  }

  predicate Below(numbers: set<nat>, bound: nat) { forall d <- numbers :: d < bound }

  /** The documents that a deleted bitmap leaves, in document-number order. */
  function Live(docs: seq<Entry>, deleted: set<nat>): seq<Entry> {
    if docs == [] then [] else
      var n := |docs| - 1;
      if n in deleted then Live(docs[..n], deleted) else Live(docs[..n], deleted) + [docs[n]]
  }

  /** `Segment.DocNumbers`: every number, live or not, whose document has one of the ids. */
  function DocNumbers(docs: seq<Entry>, ids: set<DocId>): set<nat> {
    set d: nat | d < |docs| && docs[d].id in ids
  }

  function Without(entries: seq<Entry>, ids: set<DocId>): seq<Entry> {
    if entries == [] then [] else
      var n := |entries| - 1;
      if entries[n].id in ids then Without(entries[..n], ids) else Without(entries[..n], ids) + [entries[n]]
  }

  lemma {:induction false} LiveFrame(docs: seq<Entry>, a: set<nat>, b: set<nat>)
    requires forall d: nat | d < |docs| :: d in a <==> d in b
    ensures Live(docs, a) == Live(docs, b)
  {
    if docs != [] {
      LiveFrame(docs[..|docs| - 1], a, b);
    }
  }

  lemma {:induction false} LiveCount(docs: seq<Entry>, deleted: set<nat>)
    requires Below(deleted, |docs|)
    ensures |Live(docs, deleted)| == |docs| - |deleted|
  {
    if docs != [] {
      var n := |docs| - 1;
      LiveFrame(docs[..n], deleted, deleted - {n});
      LiveCount(docs[..n], deleted - {n});
    }
  }

  /** Adding the numbers of some ids to the bitmap removes exactly the documents with those ids. */
  lemma {:induction false} LiveObsolete(docs: seq<Entry>, deleted: set<nat>, ids: set<DocId>)
    ensures Live(docs, deleted + DocNumbers(docs, ids)) == Without(Live(docs, deleted), ids)
  {
    if docs != [] {
      var n := |docs| - 1;
      LiveFrame(docs[..n], deleted + DocNumbers(docs, ids), deleted + DocNumbers(docs[..n], ids));
      LiveObsolete(docs[..n], deleted, ids);
      if n !in deleted {
        var l := Live(docs, deleted);
        assert l[..|l| - 1] == Live(docs[..n], deleted) && l[|l| - 1] == docs[n];
      }
    }
  }

  lemma {:induction false} LiveConcat(a: seq<Entry>, b: seq<Entry>, deleted: set<nat>, shifted: set<nat>)
    requires forall d: nat | d < |b| :: d in shifted <==> |a| + d in deleted
    ensures Live(a + b, deleted) == Live(a, deleted) + Live(b, shifted)
  {
    if b == [] {
      assert a + b == a;
    } else {
      var n := |b| - 1;
      assert (a + b)[..|a + b| - 1] == a + b[..n];
      LiveConcat(a, b[..n], deleted, shifted);
    }
  }

  lemma {:induction false} WithoutConcat(a: seq<Entry>, b: seq<Entry>, ids: set<DocId>)
    ensures Without(a + b, ids) == Without(a, ids) + Without(b, ids)
  {
    if b == [] {
      assert a + b == a;
    } else {
      assert (a + b)[..|a + b| - 1] == a + b[..|b| - 1];
      WithoutConcat(a, b[..|b| - 1], ids);
    }
  }

  /** How many times an entry is listed. */
  function Occurrences(entries: seq<Entry>, e: Entry): nat {
    if entries == [] then 0 else
      var n := |entries| - 1;
      Occurrences(entries[..n], e) + (if entries[n] == e then 1 else 0)
  }

  lemma {:induction false} OccurrencesConcat(a: seq<Entry>, b: seq<Entry>, e: Entry)
    ensures Occurrences(a + b, e) == Occurrences(a, e) + Occurrences(b, e)
  {
    if b == [] {
      assert a + b == a;
    } else {
      assert (a + b)[..|a + b| - 1] == a + b[..|b| - 1];
      OccurrencesConcat(a, b[..|b| - 1], e);
    }
  }

  lemma {:induction false} OccurrencesWithout(entries: seq<Entry>, ids: set<DocId>, e: Entry)
    ensures Occurrences(Without(entries, ids), e) == if e.id in ids then 0 else Occurrences(entries, e)
  {
    if entries != [] {
      var n := |entries| - 1;
      OccurrencesWithout(entries[..n], ids, e);
      OccurrencesConcat(Without(entries[..n], ids), [entries[n]], e);
      assert Occurrences([entries[n]], e) == Occurrences([entries[n]][..0], e) + (if entries[n] == e then 1 else 0);
    }
  }

  // ---- the contract of SegmentPlugin.Merge ----

  /** The number reported for a document that the merge dropped. */
  const DOC_DROPPED := 0xFFFF_FFFF_FFFF_FFFF

  /** The merged segment: the survivors of the inputs, one input after the other. */
  function Merged(inputs: seq<SegmentSnapshot>): seq<Entry> {
    if inputs == [] then [] else
      Merged(inputs[..|inputs| - 1]) + inputs[|inputs| - 1].Contents()
  }

  /** How many documents before number `d` survive. */
  function Rank(s: SegmentSnapshot, d: nat): nat
    requires d <= |s.docs|
  {
    |Live(s.docs[..d], s.deleted)|
  }

  function NewNumber(inputs: seq<SegmentSnapshot>, j: nat, d: nat): nat
    requires j < |inputs| && d < |inputs[j].docs|
  {
    if d in inputs[j].deleted then DOC_DROPPED else |Merged(inputs[..j])| + Rank(inputs[j], d)
  }

  /** The old-to-new numbering that `Merge` reports for input `j`. */
  function NewNumbers(inputs: seq<SegmentSnapshot>, j: nat): (r: seq<nat>)
    requires j < |inputs|
    ensures |r| == |inputs[j].docs|
    ensures forall d | 0 <= d < |r| :: r[d] == NewNumber(inputs, j, d)
  {
    seq(|inputs[j].docs|, d requires 0 <= d < |inputs[j].docs| => NewNumber(inputs, j, d))
  }

  /** Surviving documents keep their content under the reported numbering. */
  lemma {:induction false} NewNumberFindsDocument(inputs: seq<SegmentSnapshot>, j: nat, d: nat)
    requires j < |inputs| && d < |inputs[j].docs| && d !in inputs[j].deleted
    ensures NewNumber(inputs, j, d) < |Merged(inputs)|
    ensures Merged(inputs)[NewNumber(inputs, j, d)] == inputs[j].docs[d]
  {
    var n := |inputs| - 1;
    if j < n {
      assert inputs[..n][..j] == inputs[..j];
      NewNumberFindsDocument(inputs[..n], j, d);
    } else {
      RankFindsDocument(inputs[j], inputs[j].docs, d);
    }
  }

  lemma {:induction false} RankFindsDocument(s: SegmentSnapshot, docs: seq<Entry>, d: nat)
    requires docs <= s.docs && d < |docs| && d !in s.deleted
    ensures Rank(s, d) < |Live(docs, s.deleted)|
    ensures Live(docs, s.deleted)[Rank(s, d)] == s.docs[d]
  {
    var n := |docs| - 1;
    if d < n {
      RankFindsDocument(s, docs[..n], d);
    } else {
      assert docs[..n] == s.docs[..d];
    }
  }

  // ---- deletes translated through the numbering ----

  /** `since[j]`: deletes made in input `j` after the merge read it. */
  ghost predicate Later(inputs: seq<SegmentSnapshot>, since: seq<set<nat>>) {
    |since| == |inputs| && forall j | 0 <= j < |inputs| :: since[j] <= inputs[j].LiveNumbers()
  }

  function Ranks(s: SegmentSnapshot, numbers: set<nat>): set<nat> {
    set d | d in numbers && d in s.LiveNumbers() :: Rank(s, d)
  }

  function Shifted(base: nat, numbers: set<nat>): set<nat> {
    set r | r in numbers :: base + r
  }

  /** Their new numbers. */
  function Translated(inputs: seq<SegmentSnapshot>, since: seq<set<nat>>): set<nat>
    requires |since| == |inputs|
  {
    if inputs == [] then {} else
      var n := |inputs| - 1;
      Translated(inputs[..n], since[..n]) + Shifted(|Merged(inputs[..n])|, Ranks(inputs[n], since[n]))
  }

  /** Document `d` of input `j` is among the later deletes and gets the number `x`. */
  ghost predicate TranslatedFrom(inputs: seq<SegmentSnapshot>, since: seq<set<nat>>, x: nat, j: nat, d: nat)
    requires |since| == |inputs|
  {
    j < |inputs| && d in since[j] && d in inputs[j].LiveNumbers() && x == NewNumber(inputs, j, d)
  }

  lemma {:induction false} TranslatedFromPrefix(inputs: seq<SegmentSnapshot>, since: seq<set<nat>>, x: nat, j: nat, d: nat)
    requires |since| == |inputs| && inputs != [] && j < |inputs| - 1
    ensures
      var n := |inputs| - 1;
      TranslatedFrom(inputs[..n], since[..n], x, j, d) <==> TranslatedFrom(inputs, since, x, j, d)
  {
    assert inputs[..|inputs| - 1][..j] == inputs[..j];
  }

  lemma {:induction false} TranslatedIn(inputs: seq<SegmentSnapshot>, since: seq<set<nat>>, x: nat, j: nat, d: nat)
    requires |since| == |inputs| && TranslatedFrom(inputs, since, x, j, d)
    ensures x in Translated(inputs, since)
  {
    var n := |inputs| - 1;
    if j < n {
      TranslatedFromPrefix(inputs, since, x, j, d);
      TranslatedIn(inputs[..n], since[..n], x, j, d);
    } else {
      assert Rank(inputs[n], d) in Ranks(inputs[n], since[n]);
    }
  }

  lemma {:induction false} TranslatedOut(inputs: seq<SegmentSnapshot>, since: seq<set<nat>>, x: nat) returns (j: nat, d: nat)
    requires |since| == |inputs| && x in Translated(inputs, since)
    ensures TranslatedFrom(inputs, since, x, j, d)
  {
    var n := |inputs| - 1;
    if x in Translated(inputs[..n], since[..n]) {
      j, d := TranslatedOut(inputs[..n], since[..n], x);
      TranslatedFromPrefix(inputs, since, x, j, d);
    } else {
      var r :| r in Ranks(inputs[n], since[n]) && x == |Merged(inputs[..n])| + r;
      j := n;
      d :| d in since[n] && d in inputs[n].LiveNumbers() && r == Rank(inputs[n], d);
    }
  }

  lemma {:induction false} TranslatedMember(inputs: seq<SegmentSnapshot>, since: seq<set<nat>>, x: nat)
    requires |since| == |inputs|
    ensures x in Translated(inputs, since) <==> exists j, d ::
              0 <= j < |inputs| && d in since[j] && d in inputs[j].LiveNumbers() && x == NewNumber(inputs, j, d)
  {
    hide Translated, NewNumber;
    if x in Translated(inputs, since) {
      var j, d := TranslatedOut(inputs, since, x);
    }
    if j: nat, d :| j < |inputs| && d in since[j] && d in inputs[j].LiveNumbers() && x == NewNumber(inputs, j, d) {
      TranslatedIn(inputs, since, x, j, d);
    }
  }

  /** What the inputs hold once the later deletes are added to what the merge dropped. */
  function StillLive(inputs: seq<SegmentSnapshot>, since: seq<set<nat>>): seq<Entry>
    requires |since| == |inputs|
  {
    if inputs == [] then [] else
      var n := |inputs| - 1;
      StillLive(inputs[..n], since[..n]) + Live(inputs[n].docs, inputs[n].deleted + since[n])
  }

  lemma {:induction false} RenumberOne(s: SegmentSnapshot, docs: seq<Entry>, since: set<nat>)
    requires docs <= s.docs && since <= s.LiveNumbers()
    ensures Live(Live(docs, s.deleted), Ranks(s, since)) == Live(docs, s.deleted + since)
  {
    var ranks := Ranks(s, since);
    if docs != [] {
      var n := |docs| - 1;
      RenumberOne(s, docs[..n], since);
      if n !in s.deleted {
        var l := Live(docs, s.deleted);
        assert docs[..n] == s.docs[..n];
        assert l == Live(docs[..n], s.deleted) + [docs[n]];
        assert l[..|l| - 1] == Live(docs[..n], s.deleted) && Rank(s, n) == |l| - 1;
        forall d | d in since && d != n
          ensures Rank(s, d) != Rank(s, n)
        {
          RankInjective(s, d, n);
        }
        assert n in since <==> Rank(s, n) in ranks;
      }
    }
  }

  lemma {:induction false} RankMonotone(s: SegmentSnapshot, d: nat, e: nat)
    requires d <= e <= |s.docs|
    ensures Rank(s, d) <= Rank(s, e)
    decreases e
  {
    if d < e {
      assert s.docs[..e][..e - 1] == s.docs[..e - 1];
      RankMonotone(s, d, e - 1);
    }
  }

  lemma {:induction false} RankInjective(s: SegmentSnapshot, d: nat, e: nat)
    requires d < |s.docs| && e < |s.docs| && d != e && d !in s.deleted && e !in s.deleted
    ensures Rank(s, d) != Rank(s, e)
  {
    var lo, hi := if d < e then d else e, if d < e then e else d;
    assert s.docs[..lo + 1][..lo] == s.docs[..lo];
    RankMonotone(s, lo + 1, hi);
  }

  lemma {:induction false} RanksBelow(s: SegmentSnapshot, numbers: set<nat>)
    ensures Below(Ranks(s, numbers), |s.Contents()|)
  {
    forall d | d in numbers && d in s.LiveNumbers()
      ensures Rank(s, d) < |s.Contents()|
    {
      RankFindsDocument(s, s.docs, d);
    }
  }

  /** Deleting the translated numbers from the merged segment is deleting the original numbers
      from the inputs and merging again: same documents, same order. */
  lemma {:induction false} LiveMerged(inputs: seq<SegmentSnapshot>, since: seq<set<nat>>)
    requires Later(inputs, since)
    ensures Below(Translated(inputs, since), |Merged(inputs)|)
    ensures Live(Merged(inputs), Translated(inputs, since)) == StillLive(inputs, since)
  {
    if inputs != [] {
      var n := |inputs| - 1;
      LiveMerged(inputs[..n], since[..n]);
      RanksBelow(inputs[n], since[n]);
      LiveShifted(Merged(inputs[..n]), inputs[n].Contents(), Translated(inputs[..n], since[..n]), Ranks(inputs[n], since[n]));
      RenumberOne(inputs[n], inputs[n].docs, since[n]);
    }
  }

  lemma {:induction false} LiveShifted(a: seq<Entry>, b: seq<Entry>, before: set<nat>, after: set<nat>)
    requires Below(before, |a|)
    ensures Live(a + b, before + Shifted(|a|, after)) == Live(a, before) + Live(b, after)
  {
    var all := before + Shifted(|a|, after);
    assert forall d :: d in after ==> |a| + d in Shifted(|a|, after);
    LiveFrame(a, all, before);
    LiveConcat(a, b, all, after);
  }
}
