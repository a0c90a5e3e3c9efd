/** What a bolt cursor shows of buckets whose keys are encoded numbers: keys in byte order. */
module BoltCursor {
  import opened Options
  import opened Store
  import opened Uvarint

  predicate Sorted(keys: seq<Bytes>) {
    forall i, j | 0 <= i < j < |keys| :: LexLess(keys[i], keys[j])
  }

  predicate Fits(numbers: set<nat>) {
    forall n <- numbers :: n < TWO_64
  }

  predicate KeyFor(key: Bytes, numbers: set<nat>) {
    exists n <- numbers :: n < TWO_64 && key == Encode(n)
  }

  /** The cursor visits the encodings of exactly these numbers. */
  ghost predicate CursorOf(keys: seq<Bytes>, numbers: set<nat>) {
    && Fits(numbers) && Sorted(keys)
    && (forall n <- numbers :: Encode(n) in keys)
    && (forall i | 0 <= i < |keys| :: KeyFor(keys[i], numbers))
  }

  predicate AllFit(numbers: seq<nat>) {
    forall i | 0 <= i < |numbers| :: numbers[i] < TWO_64
  }

  function Keys(numbers: seq<nat>): (r: seq<Bytes>)
    requires AllFit(numbers)
    ensures |r| == |numbers|
    ensures forall i | 0 <= i < |r| :: r[i] == Encode(numbers[i])
  {
    seq(|numbers|, i requires 0 <= i < |numbers| => Encode(numbers[i]))
  }

  lemma {:induction false} LastKeyIsMax(keys: seq<Bytes>, numbers: set<nat>)
    requires CursorOf(keys, numbers) && numbers != {}
    ensures Max(numbers) < TWO_64 && keys != [] && keys[|keys| - 1] == Encode(Max(numbers))
  {
    var m, last := Max(numbers), |keys| - 1;
    var i :| 0 <= i < |keys| && keys[i] == Encode(m);
    assert KeyFor(keys[last], numbers);
    var n :| n in numbers && n < TWO_64 && keys[last] == Encode(n);
    EncodeOrderIff(m, n);
  }

  lemma {:induction false} WithoutLast(keys: seq<Bytes>, numbers: set<nat>)
    requires CursorOf(keys, numbers) && numbers != {} && keys != []
    requires Max(numbers) < TWO_64 && keys[|keys| - 1] == Encode(Max(numbers))
    ensures CursorOf(keys[..|keys| - 1], numbers - {Max(numbers)})
  {
    hide LexLess, Encode;
    var m, init := Max(numbers), keys[..|keys| - 1];
    forall n | n in numbers - {m}
      ensures Encode(n) in init
    {
      EncodeOrderIff(n, m);
      var i :| 0 <= i < |keys| && keys[i] == Encode(n);
      assert i < |keys| - 1 && init[i] == Encode(n);
    }
    forall i | 0 <= i < |init|
      ensures KeyFor(init[i], numbers - {m})
    {
      assert KeyFor(keys[i], numbers);
      var n :| n in numbers && n < TWO_64 && keys[i] == Encode(n);
      assert LexLess(keys[i], keys[|keys| - 1]);
      EncodeOrderIff(n, m);
    }
  }

  lemma {:induction false} KeysSnoc(numbers: seq<nat>, n: nat)
    requires AllFit(numbers) && n < TWO_64
    ensures AllFit(numbers + [n])
    ensures Keys(numbers + [n]) == Keys(numbers) + [Encode(n)]
  {
    hide Encode;
  }

  lemma {:induction false} AscendingSnoc(numbers: set<nat>)
    requires numbers != {}
    ensures Ascending(numbers) == Ascending(numbers - {Max(numbers)}) + [Max(numbers)]
  {
  }

  lemma {:induction false} NoKeys(keys: seq<Bytes>)
    requires CursorOf(keys, {})
    ensures keys == []
  {
    assert |keys| == 0 || KeyFor(keys[0], {});
  }

  lemma {:induction false} NoneAscending()
    ensures Ascending({}) == [] && AllFit([]) && Keys([]) == []
  {
  }

  /** Byte order is number order: the cursor shows the numbers from the smallest to the largest. */
  lemma {:induction false} CursorAscends(keys: seq<Bytes>, numbers: set<nat>)
    requires CursorOf(keys, numbers)
    ensures AllFit(Ascending(numbers)) && keys == Keys(Ascending(numbers))
  {
    hide *;
    if numbers == {} {
      NoKeys(keys);
      NoneAscending();
    } else {
      var m, n := Max(numbers), |keys| - 1;
      LastKeyIsMax(keys, numbers);
      WithoutLast(keys, numbers);
      CursorAscends(keys[..n], numbers - {m});
      AscendingSnoc(numbers);
      KeysSnoc(Ascending(numbers - {m}), m);
      assert keys == keys[..n] + [keys[n]];
    }
  }

  /** Each key decodes to its number. */
  lemma {:induction false} KeyDecodes(n: nat)
    requires n < TWO_64
    ensures Decode(Encode(n)) == Success(Decoded([], n))
    ensures Encode(n) != [] && Encode(n)[0] != 'm' as int && Encode(n)[0] != 'i' as int
  {
    RoundTrip(n, []);
    EncodeFirstByte(n);
    assert Encode(n) + [] == Encode(n);
  }

  /** The keys of a snapshot bucket: one for each segment, and the names of the internal and the
      meta bucket, which sort before them. */
  const INTERNAL_KEY: Bytes := ['i' as int]
  const META_KEY: Bytes := ['m' as int]

  lemma {:induction false} NamesComeFirst(n: nat)
    requires n < TWO_64
    ensures LexLess(INTERNAL_KEY, META_KEY) && LexLess(META_KEY, Encode(n)) && LexLess(INTERNAL_KEY, Encode(n))
  {
    EncodeFirstByte(n);
  }
}
