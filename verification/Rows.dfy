/** Keys and values of the upsidedown store's rows: written into buffers of the announced size, and
    parsed back. */
module Rows {
  import opened Options
  import opened Uvarint
  import opened Varint

  const BYTE_SEPARATOR: Byte := 0xff
  const TWO_16 := 0x1_0000
  const TWO_32 := 0x1_0000_0000

  function LittleEndian16(v: nat): Bytes
    requires v < TWO_16
  {
    [v % 256, v / 256]
  }

  /** The position of the first separator, or nothing. */
  function IndexByte(b: Bytes): Option<nat> {
    if b == [] then None
    else if b[0] == BYTE_SEPARATOR then Some(0)
    else match IndexByte(b[1..]) case None => None case Some(i) => Some(i + 1)
  }

  lemma {:induction false} IndexByteIs(b: Bytes)
    ensures IndexByte(b).None? <==> BYTE_SEPARATOR !in b
    ensures IndexByte(b).Some? ==> IndexByte(b).value < |b| && b[IndexByte(b).value] == BYTE_SEPARATOR && BYTE_SEPARATOR !in b[..IndexByte(b).value]
  {
    if b != [] {
      IndexByteIs(b[1..]);
      assert b == [b[0]] + b[1..];
      if b[0] != BYTE_SEPARATOR && IndexByte(b[1..]).Some? {
        var i := IndexByte(b[1..]).value;
        assert b[..i + 1] == [b[0]] + b[1..][..i];
      }
    }
  }

  lemma {:induction false} FirstSeparator(before: Bytes, after: Bytes)
    ensures IndexByte(before + [BYTE_SEPARATOR] + after).Some?
    ensures IndexByte(before + [BYTE_SEPARATOR] + after).value == |before| <==> BYTE_SEPARATOR !in before
  {
    var b := before + [BYTE_SEPARATOR] + after;
    IndexByteIs(b);
    assert b[|before|] == BYTE_SEPARATOR;
    var i := IndexByte(b).value;
    assert forall k | 0 <= k < i :: b[..i][k] == b[k];
    assert i <= |before|;
    assert b[..|before|] == before;
    if i < |before| {
      assert before[i] == b[i];
    }
  }

  // ---- term frequency rows: keys ----

  datatype TermKey = TermKey(field: nat, term: Bytes, doc: Bytes)

  function TermKeyBytes(k: TermKey): Bytes
    requires k.field < TWO_16
  {
    ['t' as int] + LittleEndian16(k.field) + k.term + [BYTE_SEPARATOR] + k.doc
  }

  function TermKeySize(k: TermKey): nat { 3 + |k.term| + 1 + |k.doc| }

  function ParseTermKey(key: Bytes): Result<TermKey> {
    if |key| < 3 then Failure("invalid term frequency key, no valid field") else
      match IndexByte(key[3..])
      case None => Failure("invalid term frequency key, no byte separator terminating term")
      case Some(end) =>
        IndexByteIs(key[3..]);
        if |key| - (3 + end + 1) < 1 then Failure("invalid term frequency key, empty docid")
        else Success(TermKey(key[1] as int + 256 * (key[2] as int), key[3..3 + end], key[3 + end + 1..]))
  }

  /** A key is parsed back exactly when its term has no separator byte and its document id is not
      empty. */
  lemma {:induction false} TermKeyReadsBack(k: TermKey)
    requires k.field < TWO_16
    ensures |TermKeyBytes(k)| == TermKeySize(k)
    ensures ParseTermKey(TermKeyBytes(k)) == Success(k) <==> BYTE_SEPARATOR !in k.term && k.doc != []
  {
    var key := TermKeyBytes(k);
    TermKeyParts(k);
    FirstSeparator(k.term, k.doc);
    IndexByteIs(key[3..]);
    hide TermKeyBytes, IndexByte;
    var end := IndexByte(key[3..]).value;
    if end != |k.term| {
      assert |key[3..3 + end]| == end;
    }
  }

  lemma {:induction false} TermKeyParts(k: TermKey)
    requires k.field < TWO_16
    ensures
      var key, n := TermKeyBytes(k), |k.term|;
      && |key| == TermKeySize(k) && key[3..] == k.term + [BYTE_SEPARATOR] + k.doc
      && key[3..3 + n] == k.term && key[3 + n + 1..] == k.doc && (key[1] as int) + 256 * (key[2] as int) == k.field
  {
  }

  method CopyTo(buf: array<Byte>, at: nat, b: Bytes)
    requires at + |b| <= buf.Length
    modifies buf
    ensures buf[..at + |b|] == old(buf[..at]) + b
  {
    for i := 0 to |b|
      invariant buf[..at + i] == old(buf[..at]) + b[..i]
    {
      buf[at + i] := b[i];
      assert b[..i + 1] == b[..i] + [b[i]];
    }
    assert b[..|b|] == b;
  }

  method TermFrequencyRowKeyTo(buf: array<Byte>, k: TermKey) returns (used: nat)
    requires k.field < TWO_16 && buf.Length >= TermKeySize(k)
    modifies buf
    ensures used == TermKeySize(k) && buf[..used] == TermKeyBytes(k)
  {
    buf[0] := 't' as int;
    buf[1], buf[2] := k.field % 256, k.field / 256;
    assert buf[..3] == ['t' as int] + LittleEndian16(k.field);
    CopyTo(buf, 3, k.term);
    CopyTo(buf, 3 + |k.term|, [BYTE_SEPARATOR]);
    CopyTo(buf, 3 + |k.term| + 1, k.doc);
    return 3 + |k.term| + 1 + |k.doc|;
  }

  // ---- term frequency rows: values ----

  datatype TermVector = TermVector(field: nat, pos: nat, start: nat, end: nat, arrayPositions: seq<nat>)

  /** `norm` stands for the 32 bits of the float. */
  datatype TermValue = TermValue(freq: nat, norm: nat, vectors: seq<TermVector>)

  predicate AllFit(numbers: seq<nat>) { forall i | 0 <= i < |numbers| :: numbers[i] < TWO_64 }

  predicate VectorOk(v: TermVector) {
    && v.field < TWO_16 && v.pos < TWO_64 && v.start < TWO_64 && v.end < TWO_64
    && |v.arrayPositions| < TWO_64 && AllFit(v.arrayPositions)
  }

  predicate ValueOk(v: TermValue) {
    v.freq < TWO_64 && v.norm < TWO_32 && forall i | 0 <= i < |v.vectors| :: VectorOk(v.vectors[i])
  }

  function Numbers(numbers: seq<nat>): Bytes {
    if numbers == [] then [] else Numbers(numbers[..|numbers| - 1]) + PutVarint(numbers[|numbers| - 1])
  }

  /** The numbers that make up a vector. */
  function VectorNumbers(v: TermVector): seq<nat> {
    [v.field, v.pos, v.start, v.end, |v.arrayPositions|] + v.arrayPositions
  }

  function VectorBytes(v: TermVector): Bytes { Numbers(VectorNumbers(v)) }

  function VectorsBytes(vectors: seq<TermVector>): Bytes {
    if vectors == [] then [] else VectorsBytes(vectors[..|vectors| - 1]) + VectorBytes(vectors[|vectors| - 1])
  }

  function TermValueBytes(v: TermValue): Bytes {
    PutVarint(v.freq) + PutVarint(v.norm) + VectorsBytes(v.vectors)
  }

  function VectorsSize(vectors: seq<TermVector>): nat {
    if vectors == [] then 0 else
      var v := vectors[|vectors| - 1];
      VectorsSize(vectors[..|vectors| - 1]) + MAX_VARINT_LEN64 * 4 + (1 + |v.arrayPositions|) * MAX_VARINT_LEN64
  }

  function TermValueSize(v: TermValue): nat { MAX_VARINT_LEN64 + MAX_VARINT_LEN64 + VectorsSize(v.vectors) }

  method PutNumbers(buf: array<Byte>, used: nat, numbers: seq<nat>) returns (n: nat)
    requires AllFit(numbers) && used + |numbers| * MAX_VARINT_LEN64 <= buf.Length
    modifies buf
    ensures used <= n <= used + |numbers| * MAX_VARINT_LEN64
    ensures buf[..n] == old(buf[..used]) + Numbers(numbers)
  {
    n := used;
    assert old(buf[..used]) + Numbers([]) == old(buf[..used]);
    for i := 0 to |numbers|
      invariant used <= n <= used + i * MAX_VARINT_LEN64
      invariant buf[..n] == old(buf[..used]) + Numbers(numbers[..i])
    {
      assert numbers[..i + 1][..i] == numbers[..i];
      var k := PutUvarint(buf, n, numbers[i]);
      n := n + k;
    }
    assert numbers[..|numbers|] == numbers;
  }

  /** Writing stays within the announced size. */
  method ValueTo(buf: array<Byte>, v: TermValue) returns (used: nat)
    requires ValueOk(v) && buf.Length >= TermValueSize(v)
    modifies buf
    ensures used <= TermValueSize(v) && buf[..used] == TermValueBytes(v)
  {
    hide PutVarint, VectorsBytes, VectorsSize, VectorOk;
    used := PutUvarint(buf, 0, v.freq);
    assert buf[..used] == PutVarint(v.freq);
    var n := PutUvarint(buf, used, v.norm);
    assert buf[..used + n] == PutVarint(v.freq) + PutVarint(v.norm);
    used := PutVectors(buf, used + n, v.vectors);
  }

  method PutVectors(buf: array<Byte>, used: nat, vectors: seq<TermVector>) returns (n: nat)
    requires (forall i | 0 <= i < |vectors| :: VectorOk(vectors[i])) && used + VectorsSize(vectors) <= buf.Length
    modifies buf
    ensures used <= n <= used + VectorsSize(vectors)
    ensures buf[..n] == old(buf[..used]) + VectorsBytes(vectors)
  {
    hide PutVarint, Numbers, VectorBytes;
    n := used;
    for i := 0 to |vectors|
      invariant used <= n <= used + VectorsSize(vectors[..i]) <= buf.Length
      invariant buf[..n] == old(buf[..used]) + VectorsBytes(vectors[..i])
    {
      ghost var done := buf[..n];
      SizeGrows(vectors, i + 1);
      OneVector(vectors, i);
      n := PutNumbers(buf, n, VectorNumbers(vectors[i]));
      assert buf[..n] == done + VectorBytes(vectors[i]);
    }
    assert vectors[..|vectors|] == vectors;
  }

  lemma {:induction false} OneVector(vectors: seq<TermVector>, i: nat)
    requires i < |vectors| && VectorOk(vectors[i])
    ensures VectorsBytes(vectors[..i + 1]) == VectorsBytes(vectors[..i]) + VectorBytes(vectors[i])
    ensures VectorsSize(vectors[..i + 1]) == VectorsSize(vectors[..i]) + |VectorNumbers(vectors[i])| * MAX_VARINT_LEN64
    ensures AllFit(VectorNumbers(vectors[i])) && VectorBytes(vectors[i]) == Numbers(VectorNumbers(vectors[i]))
  {
    assert vectors[..i + 1][..i] == vectors[..i];
  }

  lemma {:induction false} SizeGrows(vectors: seq<TermVector>, i: nat)
    requires i <= |vectors|
    ensures VectorsSize(vectors[..i]) <= VectorsSize(vectors)
  {
    if i < |vectors| {
      assert vectors[..|vectors| - 1][..i] == vectors[..i];
      SizeGrows(vectors[..|vectors| - 1], i);
    } else {
      assert vectors[..i] == vectors;
    }
  }

  // ---- parsing values ----

  datatype Parsed<T> = Parsed(value: T, rest: Bytes)

  function ReadNumber(b: Bytes, error: string): (r: Result<Parsed<nat>>)
    ensures r.Success? ==> |r.value.rest| < |b|
  {
    match ReadVarint(b)
    case None => Failure(error)
    case Some(r) => Success(Parsed(r.value, b[r.length..]))
  }

  function ReadNumbers(b: Bytes, n: nat): (r: Result<Parsed<seq<nat>>>)
    ensures r.Success? ==> |r.value.rest| <= |b|
  {
    if n == 0 then Success(Parsed([], b)) else
      match ReadNumber(b, "vector contains no arrayPosition")
      case Failure(e) => Failure(e)
      case Success(first) =>
        match ReadNumbers(first.rest, n - 1)
        case Failure(e) => Failure(e)
        case Success(more) => Success(Parsed([first.value] + more.value, more.rest))
  }

  /** One vector after its field was read. */
  function ReadVector(field: nat, b: Bytes): (r: Result<Parsed<TermVector>>)
    ensures r.Success? ==> |r.value.rest| < |b|
  {
    match ReadNumber(b, "vector contains no position")
    case Failure(e) => Failure(e)
    case Success(pos) =>
      match ReadNumber(pos.rest, "vector contains no start")
      case Failure(e) => Failure(e)
      case Success(start) =>
        match ReadNumber(start.rest, "vector contains no end")
        case Failure(e) => Failure(e)
        case Success(end) =>
          match ReadNumber(end.rest, "vector contains no arrayPositionLen")
          case Failure(e) => Failure(e)
          case Success(length) =>
            match ReadNumbers(length.rest, length.value)
            case Failure(e) => Failure(e)
            case Success(positions) =>
              Success(Parsed(TermVector(field % TWO_16, pos.value, start.value, end.value, positions.value), positions.rest))
  }

  /** Vectors until nothing is left. */
  function ReadVectors(b: Bytes): Result<seq<TermVector>>
    decreases |b|
  {
    match ReadVarint(b)
    case None => if |b| > 0 then Failure("vector field invalid") else Success([])
    case Some(field) =>
      match ReadVector(field.value, b[field.length..])
      case Failure(e) => Failure(e)
      case Success(v) =>
        match ReadVectors(v.rest)
        case Failure(e) => Failure(e)
        case Success(more) => Success([v.value] + more)
  }

  function ParseTermValue(value: Bytes, includeTermVectors: bool): Result<TermValue> {
    match ReadNumber(value, "invalid frequency")
    case Failure(e) => Failure(e)
    case Success(freq) =>
      match ReadNumber(freq.rest, "no norm")
      case Failure(e) => Failure(e)
      case Success(norm) =>
        if !includeTermVectors then Success(TermValue(freq.value, norm.value % TWO_32, [])) else
          match ReadVectors(norm.rest)
          case Failure(e) => Failure(e)
          case Success(vectors) => Success(TermValue(freq.value, norm.value % TWO_32, vectors))
  }

  /** What was read, followed by what the rest reads as. */
  function Then(before: seq<TermVector>, rest: Result<seq<TermVector>>): Result<seq<TermVector>> {
    match rest
    case Failure(e) => Failure(e)
    case Success(more) => Success(before + more)
  }

  /** `parseV`: an offset advances over the value; vectors are appended as they are read. */
  method ParseV(value: Bytes, includeTermVectors: bool) returns (r: Result<TermValue>)
    ensures r == ParseTermValue(value, includeTermVectors)
  {
    hide ReadVarint, ReadVector;
    var freq := ReadNumber(value, "invalid frequency");
    if freq.Failure? {
      return Failure(freq.error);
    }
    var norm := ReadNumber(freq.value.rest, "no norm");
    if norm.Failure? {
      return Failure(norm.error);
    }
    var bits := norm.value.value % TWO_32;
    if !includeTermVectors {
      return Success(TermValue(freq.value.value, bits, []));
    }
    var rest := norm.value.rest;
    var vectors: seq<TermVector> := [];
    ThenNone(ReadVectors(rest));
    var field := ReadVarint(rest);
    while field.Some?
      invariant field == ReadVarint(rest)
      invariant Then(vectors, ReadVectors(rest)) == ReadVectors(norm.value.rest)
      decreases |rest|
    {
      var tv := ReadVector(field.value.value, rest[field.value.length..]);
      if tv.Failure? {
        return Failure(tv.error);
      }
      ThenOne(vectors, tv.value.value, ReadVectors(tv.value.rest));
      vectors, rest := vectors + [tv.value.value], tv.value.rest;
      field := ReadVarint(rest);
    }
    if |rest| > 0 {
      return Failure("vector field invalid");
    }
    assert vectors + [] == vectors;
    return Success(TermValue(freq.value.value, bits, vectors));
  }

  lemma {:induction false} ThenNone(rest: Result<seq<TermVector>>)
    ensures Then([], rest) == rest
  {
    if rest.Success? {
      assert [] + rest.value == rest.value;
    }
  }

  lemma {:induction false} ThenOne(before: seq<TermVector>, v: TermVector, rest: Result<seq<TermVector>>)
    ensures Then(before + [v], rest) == Then(before, Then([v], rest))
  {
    if rest.Success? {
      assert before + [v] + rest.value == before + ([v] + rest.value);
    }
  }

  lemma {:induction false} NumberReadsBack(v: nat, suffix: Bytes, error: string)
    requires v < TWO_64
    ensures ReadNumber(PutVarint(v) + suffix, error) == Success(Parsed(v, suffix))
  {
    ReadBack(v, suffix);
  }

  lemma {:induction false} NumbersFromFirst(numbers: seq<nat>)
    requires numbers != []
    ensures Numbers(numbers) == PutVarint(numbers[0]) + Numbers(numbers[1..])
  {
    var n := |numbers| - 1;
    if n > 0 {
      NumbersFromFirst(numbers[..n]);
      assert numbers[..n][1..] == numbers[1..][..n - 1];
      assert numbers[1..][n - 1] == numbers[n];
    } else {
      assert numbers[..0] == [] && numbers[1..] == [];
    }
  }

  lemma {:induction false} NumbersReadBack(numbers: seq<nat>, suffix: Bytes)
    requires AllFit(numbers)
    ensures ReadNumbers(Numbers(numbers) + suffix, |numbers|) == Success(Parsed(numbers, suffix))
  {
    if numbers == [] {
      assert Numbers([]) + suffix == suffix;
    } else {
      var rest := numbers[1..];
      NumbersFromFirst(numbers);
      assert Numbers(numbers) + suffix == PutVarint(numbers[0]) + (Numbers(rest) + suffix);
      NumberReadsBack(numbers[0], Numbers(rest) + suffix, "vector contains no arrayPosition");
      NumbersReadBack(rest, suffix);
      assert numbers == [numbers[0]] + rest;
    }
  }

  /** The bytes of a vector, one number at a time. */
  lemma {:induction false} VectorBytesAre(v: TermVector)
    ensures VectorBytes(v) == PutVarint(v.field) + (PutVarint(v.pos) + (PutVarint(v.start) + (PutVarint(v.end)
                                + (PutVarint(|v.arrayPositions|) + Numbers(v.arrayPositions)))))
  {
    var n := VectorNumbers(v);
    NumbersFromFirst(n);
    NumbersFromFirst(n[1..]);
    NumbersFromFirst(n[2..]);
    NumbersFromFirst(n[3..]);
    NumbersFromFirst(n[4..]);
    assert n[1..][1..] == n[2..] && n[2..][1..] == n[3..] && n[3..][1..] == n[4..] && n[4..][1..] == v.arrayPositions;
  }

  lemma {:induction false} VectorReadsBack(v: TermVector, suffix: Bytes)
    requires VectorOk(v)
    ensures ReadVarint(VectorBytes(v) + suffix) == Some(Read(v.field, |PutVarint(v.field)|))
    ensures ReadVector(v.field, (VectorBytes(v) + suffix)[|PutVarint(v.field)|..]) == Success(Parsed(v, suffix))
  {
    hide PutVarint, Numbers, VectorBytes, ReadNumber, ReadNumbers, ReadVarint;
    VectorBytesAre(v);
    var e := Numbers(v.arrayPositions) + suffix;
    var d := PutVarint(|v.arrayPositions|) + e;
    var c := PutVarint(v.end) + d;
    var b := PutVarint(v.start) + c;
    var a := PutVarint(v.pos) + b;
    assert VectorBytes(v) + suffix == PutVarint(v.field) + a;
    ReadBack(v.field, a);
    AfterField(v, suffix, a, b, c, d, e);
  }

  lemma {:induction false} AfterField(v: TermVector, suffix: Bytes, a: Bytes, b: Bytes, c: Bytes, d: Bytes, e: Bytes)
    requires VectorOk(v) && e == Numbers(v.arrayPositions) + suffix && d == PutVarint(|v.arrayPositions|) + e
    requires c == PutVarint(v.end) + d && b == PutVarint(v.start) + c && a == PutVarint(v.pos) + b
    ensures ReadVector(v.field, a) == Success(Parsed(v, suffix))
  {
    hide PutVarint, Numbers, ReadNumber, ReadNumbers, ReadVarint;
    NumberReadsBack(v.pos, b, "vector contains no position");
    NumberReadsBack(v.start, c, "vector contains no start");
    NumberReadsBack(v.end, d, "vector contains no end");
    NumberReadsBack(|v.arrayPositions|, e, "vector contains no arrayPositionLen");
    NumbersReadBack(v.arrayPositions, suffix);
  }

  lemma {:induction false} VectorsFromFirst(vectors: seq<TermVector>)
    requires vectors != []
    ensures VectorsBytes(vectors) == VectorBytes(vectors[0]) + VectorsBytes(vectors[1..])
  {
    var n := |vectors| - 1;
    if n > 0 {
      VectorsFromFirst(vectors[..n]);
      assert vectors[..n][1..] == vectors[1..][..n - 1];
      assert vectors[1..][n - 1] == vectors[n];
    } else {
      assert vectors[..0] == [] && vectors[1..] == [];
    }
  }

  lemma {:induction false} VectorsReadBack(vectors: seq<TermVector>)
    requires forall i | 0 <= i < |vectors| :: VectorOk(vectors[i])
    ensures ReadVectors(VectorsBytes(vectors)) == Success(vectors)
  {
    hide VectorBytes, ReadVector, VectorOk;
    if vectors == [] {
      assert ReadVarint([]) == None;
    } else {
      VectorsFromFirst(vectors);
      VectorReadsBack(vectors[0], VectorsBytes(vectors[1..]));
      VectorsReadBack(vectors[1..]);
      assert vectors == [vectors[0]] + vectors[1..];
    }
  }

  /** Every value, whatever its vectors and array positions, is parsed back; without asking for the
      vectors, all but them. */
  lemma {:induction false} TermValueReadsBack(v: TermValue)
    requires ValueOk(v)
    ensures ParseTermValue(TermValueBytes(v), true) == Success(v)
    ensures ParseTermValue(TermValueBytes(v), false) == Success(v.(vectors := []))
  {
    hide PutVarint, VectorsBytes, ReadVectors, ReadNumber, VectorOk;
    var rest := VectorsBytes(v.vectors);
    assert TermValueBytes(v) == PutVarint(v.freq) + (PutVarint(v.norm) + rest);
    NumberReadsBack(v.freq, PutVarint(v.norm) + rest, "invalid frequency");
    NumberReadsBack(v.norm, rest, "no norm");
    VectorsReadBack(v.vectors);
  }

  // ---- stored rows ----

  datatype StoredKey = StoredKey(doc: Bytes, field: nat, arrayPositions: seq<nat>)

  function StoredKeyBytes(k: StoredKey): Bytes
    requires k.field < TWO_16
  {
    ['s' as int] + k.doc + [BYTE_SEPARATOR] + LittleEndian16(k.field) + Numbers(k.arrayPositions)
  }

  function StoredKeySize(k: StoredKey): nat { 1 + |k.doc| + 1 + 2 + MAX_VARINT_LEN64 * |k.arrayPositions| }

  method StoredRowKeyTo(buf: array<Byte>, k: StoredKey) returns (bytesUsed: nat)
    requires k.field < TWO_16 && AllFit(k.arrayPositions) && buf.Length >= StoredKeySize(k)
    modifies buf
    ensures bytesUsed <= StoredKeySize(k) && buf[..bytesUsed] == StoredKeyBytes(k)
  {
    buf[0] := 's' as int;
    assert buf[..1] == ['s' as int];
    CopyTo(buf, 1, k.doc);
    CopyTo(buf, 1 + |k.doc|, [BYTE_SEPARATOR]);
    CopyTo(buf, 1 + |k.doc| + 1, LittleEndian16(k.field));
    bytesUsed := PutNumbers(buf, 1 + |k.doc| + 1 + 2, k.arrayPositions);
  }

  /** Array positions are read until one cannot be. */
  function ReadPositions(b: Bytes): seq<nat>
    decreases |b|
  {
    match ReadVarint(b)
    case None => []
    case Some(r) => [r.value] + ReadPositions(b[r.length..])
  }

  function ParseStoredKey(key: Bytes): Result<StoredKey> {
    if key == [] then Failure("EOF") else
      match IndexByte(key[1..])
      case None => Failure("EOF")
      case Some(end) =>
        IndexByteIs(key[1..]);
        if end + 1 < 2 then Failure("invalid doc length 0")
        else if |key| < 1 + end + 1 + 2 then Failure("unexpected EOF")
        else
          var at := 1 + end + 1;
          Success(StoredKey(key[1..1 + end], key[at] as int + 256 * (key[at + 1] as int), ReadPositions(key[at + 2..])))
  }

  lemma {:induction false} PositionsReadBack(numbers: seq<nat>)
    requires AllFit(numbers)
    ensures ReadPositions(Numbers(numbers)) == numbers
  {
    if numbers == [] {
      assert ReadVarint([]) == None;
    } else {
      NumbersFromFirst(numbers);
      ReadBack(numbers[0], Numbers(numbers[1..]));
      PositionsReadBack(numbers[1..]);
      assert numbers == [numbers[0]] + numbers[1..];
    }
  }

  /** A key is parsed back exactly when its document id has no separator byte and is not empty. */
  lemma {:induction false} StoredKeyReadsBack(k: StoredKey)
    requires k.field < TWO_16 && AllFit(k.arrayPositions)
    ensures ParseStoredKey(StoredKeyBytes(k)) == Success(k) <==> BYTE_SEPARATOR !in k.doc && k.doc != []
  {
    var key := StoredKeyBytes(k);
    var tail := LittleEndian16(k.field) + Numbers(k.arrayPositions);
    assert key[1..] == k.doc + [BYTE_SEPARATOR] + tail;
    FirstSeparator(k.doc, tail);
    IndexByteIs(key[1..]);
    var end := IndexByte(key[1..]).value;
    if end == |k.doc| {
      assert key[1..1 + end] == k.doc;
      assert key[1 + end + 1..] == tail && key[1 + end + 1 + 2..] == Numbers(k.arrayPositions);
      assert key[1 + end + 1] == tail[0] && key[1 + end + 2] == tail[1];
      PositionsReadBack(k.arrayPositions);
    }
  }
}
