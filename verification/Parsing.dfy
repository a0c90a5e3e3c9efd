/** Exactly which bytes are accepted as varints, keys and values of rows, and what is read from them. */
module Parsing {
  import opened Options
  import opened Uvarint
  import opened Varint
  import opened Rows
  import opened Formats
  import PrefixCoded

  // ---- varints ----

  /** The buffer starts with a varint of `n` bytes that fits, when `i` bytes of it came before: its last byte is
      the first one below 128, and a tenth byte is 0 or 1. */
  ghost predicate EndsAt(b: Bytes, i: nat, n: nat) {
    && 1 <= n <= |b| && i + n <= 10 && (forall k | 0 <= k < n - 1 :: b[k] >= 128) && b[n - 1] < 128
    && (i + n == 10 ==> b[n - 1] <= 1)
  }

  /** Its value has the low seven bits of each byte as its digits. */
  ghost predicate HasDigits(b: Bytes, n: nat, v: nat) {
    n <= |b| && v < Power(128, n) && forall k | 0 <= k < n :: Digit(v, 128, k) == b[k] % 128
  }

  lemma {:induction false} OneByte(b: Bytes)
    requires b != [] && b[0] < 128
    ensures HasDigits(b, 1, b[0])
  {
    DigitShift(b[0], 128, 0);
    assert Power(128, 1) == 128 * Power(128, 0) == 128;
    hide Digit;
  }

  lemma {:induction false} OneByteMore(b: Bytes, n: nat, v: nat)
    requires b != [] && b[0] >= 128 && HasDigits(b[1..], n, v)
    ensures HasDigits(b, n + 1, b[0] - 128 + 128 * v)
  {
    var now := b[0] - 128 + 128 * v;
    assert now / 128 == v && now % 128 == b[0] - 128;
    Shorter(now, 128, n);
    DigitShift(now, 128, 0);
    hide Digit, Power;
    forall k | 0 <= k < n + 1
      ensures Digit(now, 128, k) == b[k] % 128
    {
      if k > 0 {
        DigitShift(now, 128, k - 1);
        assert b[k] == b[1..][k - 1];
      }
    }
  }

  lemma {:induction false} ReadFromIff(b: Bytes, i: nat)
    ensures ReadFrom(b, i).Some? <==> exists n: nat :: EndsAt(b, i, n)
    ensures ReadFrom(b, i).Some? ==>
              var r := ReadFrom(b, i).value; EndsAt(b, i, r.length) && HasDigits(b, r.length, r.value)
  {
    if b == [] || i >= MAX_VARINT_LEN64 {
      NoEnd(b, i);
    } else if b[0] < 128 {
      OneByte(b);
      EndsAtOnce(b, i);
    } else {
      ReadFromIff(b[1..], i + 1);
      if ReadFrom(b[1..], i + 1).Some? {
        var r := ReadFrom(b[1..], i + 1).value;
        OneByteMore(b, r.length, r.value);
        EndsLater(b, i, r.length);
      } else {
        if n: nat :| EndsAt(b, i, n) {
          EndsEarlier(b, i, n);
        }
      }
    }
  }

  lemma {:induction false} NoEnd(b: Bytes, i: nat)
    requires b == [] || i >= 10
    ensures forall n: nat :: !EndsAt(b, i, n)
  {
  }

  lemma {:induction false} EndsAtOnce(b: Bytes, i: nat)
    requires b != [] && b[0] < 128 && i < 10
    ensures EndsAt(b, i, 1) <==> (i == 9 ==> b[0] <= 1)
    ensures forall n: nat | EndsAt(b, i, n) :: n == 1
  {
  }

  lemma {:induction false} EndsLater(b: Bytes, i: nat, n: nat)
    requires b != [] && b[0] >= 128 && EndsAt(b[1..], i + 1, n)
    ensures EndsAt(b, i, n + 1)
  {
    assert forall k | 1 <= k < n :: b[k] == b[1..][k - 1];
  }

  lemma {:induction false} EndsEarlier(b: Bytes, i: nat, n: nat)
    requires b != [] && b[0] >= 128 && EndsAt(b, i, n)
    ensures n > 1 && EndsAt(b[1..], i + 1, n - 1)
  {
  }

  /** A number is read exactly when a varint ends within ten bytes and fits 64 bits. */
  lemma {:induction false} ReadsIff(b: Bytes)
    ensures ReadVarint(b).Some? <==> exists n: nat :: EndsAt(b, 0, n)
    ensures ReadVarint(b).Some? ==> var r := ReadVarint(b).value; EndsAt(b, 0, r.length) && HasDigits(b, r.length, r.value)
  {
    ReadFromIff(b, 0);
  }

  /** One after the other, the numbers are read and `rest` is what follows. */
  ghost predicate Reads(b: Bytes, numbers: seq<nat>, rest: Bytes) {
    if numbers == [] then rest == b else
      var r := ReadVarint(b);
      r.Some? && r.value.value == numbers[0] && Reads(b[r.value.length..], numbers[1..], rest)
  }

  lemma {:induction false} ReadsTogether(b: Bytes, first: seq<nat>, more: seq<nat>, rest: Bytes)
    ensures Reads(b, first + more, rest) <==> exists between :: Reads(b, first, between) && Reads(between, more, rest)
  {
    hide ReadVarint;
    if first == [] {
      assert first + more == more;
      assert Reads(b, [], b);
    } else if ReadVarint(b).Some? && ReadVarint(b).value.value == first[0] {
      var r := ReadVarint(b).value;
      ReadsTogether(b[r.length..], first[1..], more, rest);
      assert (first + more)[1..] == first[1..] + more;
      assert forall between :: Reads(b, first, between) <==> Reads(b[r.length..], first[1..], between);
    }
  }

  lemma {:induction false} ReadsOne(b: Bytes, n: nat, rest: Bytes)
    ensures Reads(b, [n], rest) <==> ReadVarint(b).Some? && ReadVarint(b).value.value == n && rest == b[ReadVarint(b).value.length..]
  {
    hide ReadVarint;
    assert [n][1..] == [];
  }

  lemma {:induction false} ReadsOneWay(b: Bytes, a: seq<nat>, c: seq<nat>, rest: Bytes, other: Bytes)
    requires Reads(b, a, rest) && Reads(b, c, other) && |a| == |c|
    ensures a == c && rest == other
  {
    hide ReadVarint;
    if a != [] {
      ReadsOneWay(b[ReadVarint(b).value.length..], a[1..], c[1..], rest, other);
      assert a == [a[0]] + a[1..] && c == [c[0]] + c[1..];
    }
  }

  // ---- keys ----

  /** Bytes that are accepted as a term key: any first byte, two bytes of field number, the term up to the first
      separator, and a document id that is not empty. */
  ghost predicate IsTermKey(key: Bytes, k: TermKey) {
    && k.field < 0x1_0000 && 0xff !in k.term && k.doc != [] && key != []
    && key == [key[0]] + [k.field % 256, k.field / 256] + k.term + [0xff] + k.doc
  }

  lemma {:induction false} TermKeyIff(key: Bytes, k: TermKey)
    ensures ParseTermKey(key) == Success(k) <==> IsTermKey(key, k)
  {
    hide *;
    if IsTermKey(key, k) {
      TermKeyIsAccepted(key, k);
    }
    if ParseTermKey(key) == Success(k) {
      AcceptedTermKey(key, k);
    }
  }

  lemma {:induction false} TermKeyIsAccepted(key: Bytes, k: TermKey)
    requires IsTermKey(key, k)
    ensures ParseTermKey(key) == Success(k)
  {
    KeyRest(key, k);
    FirstSeparator(k.term, k.doc);
    hide IndexByte;
  }

  lemma {:induction false} AcceptedTermKey(key: Bytes, k: TermKey)
    requires ParseTermKey(key) == Success(k)
    ensures IsTermKey(key, k)
  {
    hide IndexByte;
    IndexByteIs(key[3..]);
    var end := IndexByte(key[3..]).value;
    FieldBytes(key[1], key[2]);
    AroundAt(key[3..], end);
    AroundKey(key, end);
  }

  lemma {:induction false} AroundAt(b: Bytes, i: nat)
    requires i < |b|
    ensures b == b[..i] + [b[i]] + b[i + 1..]
  {
  }

  lemma {:induction false} AroundKey(key: Bytes, end: nat)
    requires |key| >= 3 + end + 1
    ensures key[3..][..end] == key[3..3 + end] && key[3..][end + 1..] == key[3 + end + 1..]
    ensures key == [key[0]] + [key[1], key[2]] + key[3..]
  {
  }

  lemma {:induction false} FieldBytes(low: Byte, high: Byte)
    ensures var field := low as int + 256 * (high as int); field < 0x1_0000 && field % 256 == low && field / 256 == high
  {
  }

  lemma {:induction false} KeyRest(key: Bytes, k: TermKey)
    requires IsTermKey(key, k)
    ensures |key| >= 5 + |k.term| && key[3..] == k.term + [0xff] + k.doc && (key[1] as int) + 256 * (key[2] as int) == k.field
    ensures key[3..3 + |k.term|] == k.term && key[3 + |k.term| + 1..] == k.doc
  {
  }

  /** Bytes that are accepted as a stored key: any first byte, the document id up to the first separator, not
      empty, two bytes of field number, and array positions for as long as they can be read. */
  ghost predicate IsStoredKey(key: Bytes, k: StoredKey, tail: Bytes, left: Bytes) {
    && k.field < 0x1_0000 && 0xff !in k.doc && k.doc != [] && key != []
    && key == [key[0]] + k.doc + [0xff] + [k.field % 256, k.field / 256] + tail
    && Reads(tail, k.arrayPositions, left) && ReadVarint(left).None?
  }

  lemma {:induction false} StoredKeyIff(key: Bytes, k: StoredKey)
    ensures ParseStoredKey(key) == Success(k) <==> exists tail, left :: IsStoredKey(key, k, tail, left)
  {
    hide *;
    if tail, left :| IsStoredKey(key, k, tail, left) {
      StoredKeyIsAccepted(key, k, tail, left);
    }
    if ParseStoredKey(key) == Success(k) {
      var tail, left := AcceptedStoredKey(key, k);
    }
  }

  lemma {:induction false} PositionsRead(b: Bytes) returns (left: Bytes)
    ensures Reads(b, ReadPositions(b), left) && ReadVarint(left).None?
    decreases |b|
  {
    hide ReadVarint;
    if ReadVarint(b).None? {
      left := b;
    } else {
      var r := ReadVarint(b).value;
      left := PositionsRead(b[r.length..]);
      assert ([r.value] + ReadPositions(b[r.length..]))[1..] == ReadPositions(b[r.length..]);
    }
  }

  lemma {:induction false} PositionsOnly(b: Bytes, positions: seq<nat>, left: Bytes)
    requires Reads(b, positions, left) && ReadVarint(left).None?
    ensures positions == ReadPositions(b)
  {
    hide ReadVarint;
    if positions != [] {
      PositionsOnly(b[ReadVarint(b).value.length..], positions[1..], left);
      assert positions == [positions[0]] + positions[1..];
    }
  }

  lemma {:induction false} StoredKeyIsAccepted(key: Bytes, k: StoredKey, tail: Bytes, left: Bytes)
    requires IsStoredKey(key, k, tail, left)
    ensures ParseStoredKey(key) == Success(k)
  {
    StoredParts(key, k, tail, left);
    FirstSeparator(k.doc, [k.field % 256, k.field / 256] + tail);
    PositionsOnly(tail, k.arrayPositions, left);
    hide IndexByte, ReadPositions, Reads, IsStoredKey;
  }

  lemma {:induction false} StoredParts(key: Bytes, k: StoredKey, tail: Bytes, left: Bytes)
    requires IsStoredKey(key, k, tail, left)
    ensures
      var n := |k.doc|;
      && n > 0 && |key| == n + 4 + |tail| && key[1..] == k.doc + [0xff] + ([k.field % 256, k.field / 256] + tail)
      && key[1..1 + n] == k.doc && key[n + 4..] == tail && (key[n + 2] as int) + 256 * (key[n + 3] as int) == k.field
      && 0xff !in k.doc && k.field < 0x1_0000
  {
    hide Reads, ReadVarint;
  }

  lemma {:induction false} AcceptedStoredKey(key: Bytes, k: StoredKey) returns (tail: Bytes, left: Bytes)
    requires ParseStoredKey(key) == Success(k)
    ensures IsStoredKey(key, k, tail, left)
  {
    IndexByteIs(key[1..]);
    var end := IndexByte(key[1..]).value;
    tail := key[end + 4..];
    left := PositionsRead(tail);
    FieldBytes(key[end + 2], key[end + 3]);
    AroundStored(key, end);
    hide IndexByte, ReadPositions, Reads, ReadVarint;
  }

  lemma {:induction false} AroundStored(key: Bytes, end: nat)
    requires |key| >= end + 4
    ensures key[1..][..end] == key[1..1 + end] && key[1..][end] == key[1 + end]
    ensures key == [key[0]] + key[1..1 + end] + [key[1 + end]] + [key[end + 2], key[end + 3]] + key[end + 4..]
  {
  }

  // ---- values ----

  lemma {:induction false} NumberIff(b: Bytes, error: string, n: nat, rest: Bytes)
    ensures ReadNumber(b, error) == Success(Parsed(n, rest)) <==> Reads(b, [n], rest)
  {
    ReadsOne(b, n, rest);
    hide ReadVarint, Reads;
  }

  lemma {:induction false} NumbersIff(b: Bytes, n: nat, numbers: seq<nat>, rest: Bytes)
    ensures ReadNumbers(b, n) == Success(Parsed(numbers, rest)) <==> |numbers| == n && Reads(b, numbers, rest)
  {
    hide ReadVarint;
    if n > 0 && numbers != [] && ReadVarint(b).Some? {
      var r := ReadVarint(b).value;
      NumbersIff(b[r.length..], n - 1, numbers[1..], rest);
      assert numbers == [numbers[0]] + numbers[1..];
      if ReadNumbers(b[r.length..], n - 1).Success? {
        var more := ReadNumbers(b[r.length..], n - 1).value.value;
        assert ([r.value] + more)[1..] == more;
      }
    }
  }

  function AfterField(v: TermVector): seq<nat> {
    [v.pos] + ([v.start] + ([v.end] + ([|v.arrayPositions|] + v.arrayPositions)))
  }

  /** The numbers of a vector but its field. */
  lemma {:induction false} VectorIff(field: nat, b: Bytes, v: TermVector, rest: Bytes)
    ensures ReadVector(field, b) == Success(Parsed(v, rest)) <==> v.field == field % 0x1_0000 && Reads(b, AfterField(v), rest)
  {
    hide Reads, ReadNumber, ReadNumbers;
    if ReadVector(field, b) == Success(Parsed(v, rest)) {
      var pos := ReadNumber(b, "vector contains no position").value;
      var start := ReadNumber(pos.rest, "vector contains no start").value;
      var end := ReadNumber(start.rest, "vector contains no end").value;
      var length := ReadNumber(end.rest, "vector contains no arrayPositionLen").value;
      NumberIff(b, "vector contains no position", v.pos, pos.rest);
      NumberIff(pos.rest, "vector contains no start", v.start, start.rest);
      NumberIff(start.rest, "vector contains no end", v.end, end.rest);
      NumberIff(end.rest, "vector contains no arrayPositionLen", length.value, length.rest);
      NumbersIff(length.rest, length.value, v.arrayPositions, rest);
      ReadsTogether(end.rest, [|v.arrayPositions|], v.arrayPositions, rest);
      ReadsTogether(start.rest, [v.end], [|v.arrayPositions|] + v.arrayPositions, rest);
      ReadsTogether(pos.rest, [v.start], [v.end] + ([|v.arrayPositions|] + v.arrayPositions), rest);
      ReadsTogether(b, [v.pos], [v.start] + ([v.end] + ([|v.arrayPositions|] + v.arrayPositions)), rest);
    }
    if v.field == field % 0x1_0000 && Reads(b, AfterField(v), rest) {
      ReadsTogether(b, [v.pos], [v.start] + ([v.end] + ([|v.arrayPositions|] + v.arrayPositions)), rest);
      var b1 :| Reads(b, [v.pos], b1) && Reads(b1, [v.start] + ([v.end] + ([|v.arrayPositions|] + v.arrayPositions)), rest);
      ReadsTogether(b1, [v.start], [v.end] + ([|v.arrayPositions|] + v.arrayPositions), rest);
      var b2 :| Reads(b1, [v.start], b2) && Reads(b2, [v.end] + ([|v.arrayPositions|] + v.arrayPositions), rest);
      ReadsTogether(b2, [v.end], [|v.arrayPositions|] + v.arrayPositions, rest);
      var b3 :| Reads(b2, [v.end], b3) && Reads(b3, [|v.arrayPositions|] + v.arrayPositions, rest);
      ReadsTogether(b3, [|v.arrayPositions|], v.arrayPositions, rest);
      var b4 :| Reads(b3, [|v.arrayPositions|], b4) && Reads(b4, v.arrayPositions, rest);
      NumberIff(b, "vector contains no position", v.pos, b1);
      NumberIff(b1, "vector contains no start", v.start, b2);
      NumberIff(b2, "vector contains no end", v.end, b3);
      NumberIff(b3, "vector contains no arrayPositionLen", |v.arrayPositions|, b4);
      NumbersIff(b4, |v.arrayPositions|, v.arrayPositions, rest);
    }
  }

  /** Field numbers are cut to 16 bits. */
  predicate FieldsCut(raws: seq<TermVector>, vectors: seq<TermVector>) {
    |raws| == |vectors| && forall i | 0 <= i < |raws| :: vectors[i] == raws[i].(field := raws[i].field % 0x1_0000)
  }

  lemma {:induction false} FirstInOrder(raws: seq<TermVector>)
    requires raws != []
    ensures VectorsInOrder(raws) == [raws[0].field] + AfterField(raws[0]) + VectorsInOrder(raws[1..])
  {
  }

  lemma {:induction false} VectorsRead(b: Bytes, vectors: seq<TermVector>) returns (raws: seq<TermVector>)
    requires ReadVectors(b) == Success(vectors)
    ensures FieldsCut(raws, vectors) && Reads(b, VectorsInOrder(raws), [])
    decreases |b|
  {
    hide ReadVarint, ReadVector, InOrder, AfterField;
    if ReadVarint(b).None? {
      raws := [];
      assert VectorsInOrder([]) == [];
    } else {
      var field := ReadVarint(b).value;
      var v := ReadVector(field.value, b[field.length..]).value;
      var more := VectorsRead(v.rest, ReadVectors(v.rest).value);
      var raw := v.value.(field := field.value);
      raws := [raw] + more;
      VectorIff(field.value, b[field.length..], v.value, v.rest);
      SameAfterField(v.value, field.value);
      ReadsOne(b, field.value, b[field.length..]);
      ReadsTogether(b, [field.value], AfterField(raw), v.rest);
      ReadsTogether(b, [field.value] + AfterField(raw), VectorsInOrder(more), []);
      FirstInOrder(raws);
      assert raws[1..] == more;
      assert vectors == [v.value] + vectors[1..];
    }
  }

  lemma {:induction false} SameAfterField(v: TermVector, field: nat)
    ensures AfterField(v.(field := field)) == AfterField(v)
  {
  }

  lemma {:induction false} VectorsAccepted(b: Bytes, raws: seq<TermVector>, vectors: seq<TermVector>)
    requires FieldsCut(raws, vectors) && Reads(b, VectorsInOrder(raws), [])
    ensures ReadVectors(b) == Success(vectors)
    decreases |raws|
  {
    hide ReadVector, InOrder, AfterField;
    if raws == [] {
      assert VectorsInOrder([]) == [] && ReadVarint([]) == None;
    } else {
      hide ReadVarint;
      var raw := raws[0];
      FirstInOrder(raws);
      ReadsTogether(b, [raw.field] + AfterField(raw), VectorsInOrder(raws[1..]), []);
      var rest :| Reads(b, [raw.field] + AfterField(raw), rest) && Reads(rest, VectorsInOrder(raws[1..]), []);
      ReadsTogether(b, [raw.field], AfterField(raw), rest);
      var after :| Reads(b, [raw.field], after) && Reads(after, AfterField(raw), rest);
      ReadsOne(b, raw.field, after);
      SameAfterField(raw, raw.field % 0x1_0000);
      VectorIff(raw.field, after, vectors[0], rest);
      VectorsAccepted(rest, raws[1..], vectors[1..]);
      assert vectors == [vectors[0]] + vectors[1..];
    }
  }

  /** A value: frequency, norm cut to 32 bits, and vectors to its end. */
  ghost predicate IsTermValue(value: Bytes, v: TermValue, norm: nat, raws: seq<TermVector>) {
    v.norm == norm % 0x1_0000_0000 && FieldsCut(raws, v.vectors) && Reads(value, [v.freq, norm] + VectorsInOrder(raws), [])
  }

  lemma {:induction false} TermValueIff(value: Bytes, v: TermValue)
    ensures ParseTermValue(value, true) == Success(v) <==> exists norm, raws :: IsTermValue(value, v, norm, raws)
  {
    hide *;
    if norm, raws :| IsTermValue(value, v, norm, raws) {
      TermValueIsAccepted(value, v, norm, raws);
    }
    if ParseTermValue(value, true) == Success(v) {
      var norm, raws := AcceptedTermValue(value, v);
    }
  }

  lemma {:induction false} TwoNumbers(b: Bytes, first: nat, second: nat, rest: Bytes)
    ensures Reads(b, [first, second], rest) <==>
              exists between :: ReadNumber(b, "invalid frequency") == Success(Parsed(first, between))
                                && ReadNumber(between, "no norm") == Success(Parsed(second, rest))
  {
    hide Reads, ReadNumber;
    assert [first] + [second] == [first, second];
    ReadsTogether(b, [first], [second], rest);
    if between :| Reads(b, [first], between) && Reads(between, [second], rest) {
      NumberIff(b, "invalid frequency", first, between);
      NumberIff(between, "no norm", second, rest);
    }
    if between :| ReadNumber(b, "invalid frequency") == Success(Parsed(first, between))
                  && ReadNumber(between, "no norm") == Success(Parsed(second, rest)) {
      NumberIff(b, "invalid frequency", first, between);
      NumberIff(between, "no norm", second, rest);
    }
  }

  lemma {:induction false} TermValueIsAccepted(value: Bytes, v: TermValue, norm: nat, raws: seq<TermVector>)
    requires IsTermValue(value, v, norm, raws)
    ensures ParseTermValue(value, true) == Success(v)
  {
    hide Reads, ReadNumber, ReadVectors, FieldsCut, VectorsInOrder;
    ReadsTogether(value, [v.freq, norm], VectorsInOrder(raws), []);
    var rest :| Reads(value, [v.freq, norm], rest) && Reads(rest, VectorsInOrder(raws), []);
    TwoNumbers(value, v.freq, norm, rest);
    VectorsAccepted(rest, raws, v.vectors);
  }

  lemma {:induction false} AcceptedTermValue(value: Bytes, v: TermValue) returns (norm: nat, raws: seq<TermVector>)
    requires ParseTermValue(value, true) == Success(v)
    ensures IsTermValue(value, v, norm, raws)
  {
    hide Reads, ReadNumber, ReadVectors, FieldsCut, VectorsInOrder;
    var freq := ReadNumber(value, "invalid frequency").value;
    var second := ReadNumber(freq.rest, "no norm").value;
    norm := second.value;
    TwoNumbers(value, freq.value, norm, second.rest);
    raws := VectorsRead(second.rest, v.vectors);
    ReadsTogether(value, [v.freq, norm], VectorsInOrder(raws), []);
  }

  /** Without vectors the value may go on behind the norm. */
  lemma {:induction false} TermValueWithoutVectorsIff(value: Bytes, v: TermValue)
    ensures ParseTermValue(value, false) == Success(v) <==>
              v.vectors == [] && exists norm: nat, rest :: v.norm == norm % 0x1_0000_0000 && Reads(value, [v.freq, norm], rest)
  {
    hide Reads, ReadNumber;
    if ParseTermValue(value, false) == Success(v) {
      var freq := ReadNumber(value, "invalid frequency").value;
      var second := ReadNumber(freq.rest, "no norm").value;
      TwoNumbers(value, freq.value, second.value, second.rest);
    }
    if norm: nat, rest :| v.norm == norm % 0x1_0000_0000 && Reads(value, [v.freq, norm], rest) {
      TwoNumbers(value, v.freq, norm, rest);
    }
  }

  // ---- keys of buckets ----

  /** Digits, most significant first, are those of one number. */
  lemma {:induction false} OneNumber(b: seq<int>, base: nat, v: nat)
    requires base > 0 && b != []
    ensures BigEndianDigits(b, v, base) <==> BigEndianDigits(b[..|b| - 1], v / base, base) && b[|b| - 1] == v % base
  {
    var n := |b| - 1;
    Shorter(v, base, n);
    DigitShift(v, base, 0);
    forall i | 0 <= i < n
      ensures Digit(v, base, i + 1) == Digit(v / base, base, i)
    {
      DigitShift(v, base, i);
    }
    hide Digit, Power;
    if BigEndianDigits(b, v, base) {
      assert b[|b| - 1 - 0] == Digit(v, base, 0);
      forall i | 0 <= i < n
        ensures b[..n][n - 1 - i] == Digit(v / base, base, i)
      {
        assert b[|b| - 1 - (i + 1)] == Digit(v, base, i + 1);
      }
    }
    if BigEndianDigits(b[..n], v / base, base) && b[n] == v % base {
      forall i | 0 <= i < |b|
        ensures b[|b| - 1 - i] == Digit(v, base, i)
      {
        if i > 0 {
          assert b[..n][n - 1 - (i - 1)] == Digit(v / base, base, i - 1);
        }
      }
    }
  }

  lemma {:induction false} NoDigits(v: nat, base: nat)
    requires base > 0
    ensures BigEndianDigits([], v, base) <==> v == 0
  {
    assert Power(base, 0) == 1;
  }

  lemma {:induction false} FromBytesIff(b: Bytes, v: nat)
    ensures BigEndianDigits(b, v, 256) <==> v == FromBytes(b)
  {
    if b == [] {
      NoDigits(v, 256);
    } else {
      OneNumber(b, 256, v);
      FromBytesIff(b[..|b| - 1], v / 256);
      hide BigEndianDigits;
    }
  }

  /** Up to 245 the first byte is the number and 136 more, modulo 2^64; from 246 to 253 it is the number of
      bytes that follow and 245 more. Nothing else is accepted. */
  ghost predicate DecodesTo(b: Bytes, rest: Bytes, v: nat) {
    && b != []
    && if b[0] <= 245 then rest == b[1..] && v == (b[0] as int - 136) % 0x1_0000_0000_0000_0000 else
         var n := b[0] - 245;
         n <= 8 && |b| > n && rest == b[1 + n..] && BigEndianDigits(b[1..1 + n], v, 256)
  }

  lemma {:induction false} DecodesIff(b: Bytes, rest: Bytes, v: nat)
    ensures Decode(b) == Success(Uvarint.Decoded(rest, v)) <==> DecodesTo(b, rest, v)
  {
    if b != [] && b[0] < 136 {
      LowFirstByteWraps(b);
    }
    if b != [] && b[0] > 245 && b[0] - 245 <= 8 && |b| > b[0] - 245 {
      FromBytesIff(b[1..1 + (b[0] - 245)], v);
    }
    hide BigEndianDigits, FromBytes;
  }

  // ---- prefix codes ----

  lemma {:induction false} ShiftWraps(v: nat, w: nat, d: nat)
    requires w == v % 0x1_0000_0000_0000_0000
    ensures (w * 128 + d) % 0x1_0000_0000_0000_0000 == (v * 128 + d) % 0x1_0000_0000_0000_0000
  {
    var q := v / 0x1_0000_0000_0000_0000;
    assert v == q * 0x1_0000_0000_0000_0000 + w;
    assert v * 128 + d == q * 128 * 0x1_0000_0000_0000_0000 + (w * 128 + d);
  }

  /** Seven-bit bytes of any number are read as the number with these digits, modulo 2^64. */
  lemma {:induction false} DigitsAreRead(b: Bytes, v: nat)
    requires BigEndianDigits(b, v, 128)
    ensures PrefixCoded.Accumulate(b) == v % 0x1_0000_0000_0000_0000
  {
    if b == [] {
      NoDigits(v, 128);
    } else {
      OneNumber(b, 128, v);
      DigitsAreRead(b[..|b| - 1], v / 128);
      ShiftWraps(v / 128, v / 128 % 0x1_0000_0000_0000_0000, v % 128);
      hide BigEndianDigits;
    }
  }

  lemma {:induction false} TimesWraps(v: nat, p: nat)
    ensures v % 0x1_0000_0000_0000_0000 * p % 0x1_0000_0000_0000_0000 == v * p % 0x1_0000_0000_0000_0000
  {
    var m := 0x1_0000_0000_0000_0000;
    var q, w := v / m, v % m;
    assert v * p == q * p * m + w * p by { SplitTimes(q, m, w, p); }
    MoreWraps(q * p, w * p);
  }

  lemma {:induction false} SplitTimes(q: nat, m: nat, w: nat, p: nat)
    ensures (q * m + w) * p == q * p * m + w * p
  {
  }

  lemma {:induction false} MoreWraps(k: nat, x: nat)
    ensures (k * 0x1_0000_0000_0000_0000 + x) % 0x1_0000_0000_0000_0000 == x % 0x1_0000_0000_0000_0000
  {
  }

  /** Accepted are first bytes from 0x20 to 0x5e, the largest shift is not; digits are shifted back in 64 bits
      and the sign bit is flipped. */
  lemma {:induction false} PrefixIsRead(p: Bytes, v: nat)
    requires p != [] && BigEndianDigits(p[1..], v, 128)
    ensures PrefixCoded.Shift(p).Success? <==> 0x20 <= p[0] <= 0x5e
    ensures PrefixCoded.Shift(p).Success? ==>
              PrefixCoded.Shift(p).value == p[0] - 0x20 &&
              PrefixCoded.Decoded(p[1..], PrefixCoded.Shift(p).value)
                == v * Power(2, p[0] - 0x20) % 0x1_0000_0000_0000_0000 - 0x8000_0000_0000_0000
  {
    DigitsAreRead(p[1..], v);
    if PrefixCoded.Shift(p).Success? {
      PowersOfTwo(p[0] - 0x20);
      TimesWraps(v, Power(2, p[0] - 0x20));
    }
    hide BigEndianDigits, Power, PrefixCoded.Pow2, PrefixCoded.Accumulate;
  }

  /** A byte with its top bit set sets the lowest bit of what was read before it. */
  lemma {:induction false} TopBitOverlaps(x: nat, b: Byte)
    ensures PrefixCoded.ShiftOr(x, b)
         == ((if b >= 128 && x % 2 == 0 then x + 1 else x) * 128 + b % 128) % 0x1_0000_0000_0000_0000
  {
  }

  /** The validator accepts exactly first byte and length of the codes of some shift, and reports that shift. */
  lemma {:induction false} ValidIff(p: Bytes, shift: nat)
    ensures PrefixCoded.ValidPrefixCodedTermBytes(p) == (true, shift) <==>
              shift <= 63 && p != [] && p[0] == 0x20 + shift && |p| == |PrefixCoded.Code(0, shift)|
    ensures !PrefixCoded.ValidPrefixCodedTermBytes(p).0 ==> PrefixCoded.ValidPrefixCodedTermBytes(p).1 == 0
  {
    if shift <= 63 {
      CodeHasFormat(0, shift);
    }
    hide PrefixCoded.Code;
  }
}
