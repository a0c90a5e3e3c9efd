/** The encodings byte by byte: what another program has to write and to expect in these places. */
module Formats {
  import opened Uvarint
  import opened Varint
  import opened Rows
  import PrefixCoded

  function Power(base: nat, n: nat): nat {
    if n == 0 then 1 else base * Power(base, n - 1)
  }

  lemma {:induction false} PowerPositive(base: nat, n: nat)
    requires base > 0
    ensures Power(base, n) > 0
  {
    if n > 0 {
      PowerPositive(base, n - 1);
    }
  }

  /** Digit `i` of a number, the last digit being digit 0. */
  function Digit(v: nat, base: nat, i: nat): nat
    requires base > 0
  {
    PowerPositive(base, i);
    v / Power(base, i) % base
  }

  lemma {:induction false} DivTwice(v: nat, a: nat, b: nat)
    requires a > 0 && b > 0
    ensures a * b > 0 && v / (a * b) == v / a / b
  {
    var x, s := v / a, v % a;
    var q, r := x / b, x % b;
    Recompose(v, a);
    Recompose(x, b);
    Associate(a, b, q, r);
    Fits(a, b, r, s);
    DivIs(v, a * b, q, a * r + s);
  }

  lemma {:induction false} Recompose(v: nat, d: nat)
    requires d > 0
    ensures v == d * (v / d) + v % d
  {
  }

  lemma {:induction false} Associate(a: nat, b: nat, q: nat, r: nat)
    ensures a * (b * q + r) == (a * b) * q + a * r
  {
  }

  lemma {:induction false} Fits(a: nat, b: nat, r: nat, s: nat)
    requires r < b && s < a
    ensures 0 <= a * r + s < a * b
  {
    assert a * (r + 1) <= a * b;
  }

  lemma {:induction false} DivIs(v: nat, d: nat, q: nat, r: nat)
    requires d > 0 && v == d * q + r && r < d
    ensures v / d == q
  {
    var k := v / d - q;
    assert d * k == r - v % d;
    assert k >= 1 ==> d * k >= d;
    assert k <= -1 ==> d * k <= -1 * d;
  }

  /** Without its last digit a number has the other digits one place further down. */
  lemma {:induction false} DigitShift(v: nat, base: nat, i: nat)
    requires base > 0
    ensures Digit(v, base, i + 1) == Digit(v / base, base, i)
    ensures Digit(v, base, 0) == v % base
  {
    PowerPositive(base, i);
    DivTwice(v, base, Power(base, i));
  }

  /** A number shorter by its last digit. */
  lemma {:induction false} Shorter(v: nat, base: nat, n: nat)
    requires base > 0
    ensures v < Power(base, n + 1) <==> v / base < Power(base, n)
  {
    var p := Power(base, n);
    if v / base < p {
      assert base * (v / base + 1) <= base * p;
    } else {
      assert base * (v / base) >= base * p;
    }
  }

  // ---- keys of buckets ----

  /** So many bytes, most significant first. */
  ghost predicate BigEndianDigits(b: seq<int>, v: nat, base: nat)
    requires base > 0
  {
    v < Power(base, |b|) && forall i | 0 <= i < |b| :: b[|b| - 1 - i] == Digit(v, base, i)
  }

  /** Up to 109 a number is one byte, 136 more; above it is the least number of bytes that hold it, after a
      byte that is their number added to 245. */
  ghost predicate KeyFormat(key: seq<int>, v: nat) {
    if v <= 109 then key == [136 + v] else
      && 2 <= |key| <= 9 && key[0] == 245 + (|key| - 1) && BigEndianDigits(key[1..], v, 256)
      && (|key| == 2 || v >= Power(256, |key| - 2))
  }

  lemma {:induction false} BigEndianIs(v: nat, n: nat)
    requires v < Power(256, n)
    ensures BigEndianDigits(BigEndian(v, n), v, 256)
  {
    if n > 0 {
      Shorter(v, 256, n - 1);
      BigEndianIs(v / 256, n - 1);
      var b := BigEndian(v, n);
      forall i | 0 <= i < n
        ensures b[n - 1 - i] == Digit(v, 256, i)
      {
        if i > 0 {
          DigitShift(v, 256, i - 1);
        } else {
          DigitShift(v, 256, 0);
        }
      }
    }
  }

  lemma {:induction false} Powers256()
    ensures Power(256, 0) == 1 && Power(256, 1) == 256 && Power(256, 2) == 0x1_0000 && Power(256, 3) == 0x100_0000
    ensures Power(256, 4) == 0x1_0000_0000 && Power(256, 5) == 0x100_0000_0000 && Power(256, 6) == 0x1_0000_0000_0000
    ensures Power(256, 7) == 0x100_0000_0000_0000 && Power(256, 8) == 0x1_0000_0000_0000_0000
  {
    assert Power(256, 0) == 1 && Power(256, 1) == 256 && Power(256, 2) == 0x1_0000 && Power(256, 3) == 0x100_0000;
    assert Power(256, 4) == 256 * Power(256, 3) && Power(256, 5) == 256 * Power(256, 4) && Power(256, 6) == 256 * Power(256, 5);
    assert Power(256, 7) == 256 * Power(256, 6) && Power(256, 8) == 256 * Power(256, 7);
  }

  lemma {:induction false} KeyHasFormat(v: nat)
    requires v < 0x1_0000_0000_0000_0000
    ensures KeyFormat(Encode(v), v)
  {
    Powers256();
    hide Power;
    if v > 109 {
      var n := Width(v);
      BigEndianIs(v, n);
      assert Encode(v)[1..] == BigEndian(v, n);
      hide BigEndianDigits, BigEndian;
    }
  }

  // ---- the order of bytes ----

  /** They agree before place `k`, where the first one ends or has the smaller byte. */
  ghost predicate LessAt(a: Bytes, b: Bytes, k: nat) {
    k <= |a| && k < |b| && a[..k] == b[..k] && (k == |a| || a[k] < b[k])
  }

  lemma {:induction false} ByteOrder(a: Bytes, b: Bytes)
    ensures LexLess(a, b) <==> exists k: nat :: LessAt(a, b, k)
  {
    if a == [] && b != [] {
      assert LessAt(a, b, 0);
    } else if b != [] && a[0] < b[0] {
      assert LessAt(a, b, 0);
    } else if b != [] && a[0] == b[0] {
      ByteOrder(a[1..], b[1..]);
      hide LessAt;
      if k: nat :| LessAt(a[1..], b[1..], k) {
        LessFurther(a, b, k);
        assert LessAt(a, b, k + 1);
      }
      if k: nat :| LessAt(a, b, k) {
        NotAtStart(a, b, k);
        LessFurther(a, b, k - 1);
        assert LessAt(a[1..], b[1..], k - 1);
      }
    }
  }

  lemma {:induction false} NotAtStart(a: Bytes, b: Bytes, k: nat)
    requires a != [] && b != [] && a[0] == b[0] && LessAt(a, b, k)
    ensures k > 0
  {
  }

  lemma {:induction false} LessFurther(a: Bytes, b: Bytes, k: nat)
    requires a != [] && b != [] && a[0] == b[0]
    ensures LessAt(a, b, k + 1) <==> LessAt(a[1..], b[1..], k)
  {
    if k + 1 <= |a| && k < |b| - 1 {
      assert a[..k + 1] == [a[0]] + a[1..][..k] && b[..k + 1] == [b[0]] + b[1..][..k];
      if a[..k + 1] == b[..k + 1] {
        assert a[1..][..k] == a[..k + 1][1..] == b[..k + 1][1..] == b[1..][..k];
      }
    }
  }

  // ---- variable-length integers ----

  /** Seven bits a byte, least significant first; all bytes but the last have the top bit set. */
  ghost predicate VarintFormat(b: seq<int>, v: nat) {
    && b != [] && v < Power(128, |b|) && (|b| == 1 || v >= Power(128, |b| - 1))
    && forall i | 0 <= i < |b| :: b[i] == Digit(v, 128, i) + (if i + 1 < |b| then 128 else 0)
  }

  lemma {:induction false} VarintHasFormat(v: nat)
    ensures VarintFormat(PutVarint(v), v)
  {
    var b := PutVarint(v);
    DigitShift(v, 128, 0);
    if v < 128 {
      assert Power(128, 1) == 128 * Power(128, 0) == 128;
    } else {
      VarintHasFormat(v / 128);
      var rest := PutVarint(v / 128);
      Shorter(v, 128, |rest|);
      Shorter(v, 128, |rest| - 1);
      assert |rest| == 1 ==> Power(128, 1) == 128 * Power(128, 0) == 128;
      forall i | 0 <= i < |b|
        ensures b[i] == Digit(v, 128, i) + (if i + 1 < |b| then 128 else 0)
      {
        if i > 0 {
          DigitShift(v, 128, i - 1);
          assert b[i] == rest[i - 1];
        }
      }
    }
  }

  // ---- rows ----

  lemma {:induction false} TermKeyHasFormat(k: TermKey)
    requires k.field < 0x1_0000
    ensures TermKeyBytes(k) == [0x74, k.field % 256, k.field / 256] + k.term + [0xff] + k.doc
  {
  }

  /** The numbers of a vector in the order in which they are written. */
  function InOrder(v: TermVector): seq<nat> {
    [v.field, v.pos, v.start, v.end, |v.arrayPositions|] + v.arrayPositions
  }

  function VectorsInOrder(vectors: seq<TermVector>): seq<nat> {
    if vectors == [] then [] else InOrder(vectors[0]) + VectorsInOrder(vectors[1..])
  }

  lemma {:induction false} InOrderSnoc(vectors: seq<TermVector>, v: TermVector)
    ensures VectorsInOrder(vectors + [v]) == VectorsInOrder(vectors) + InOrder(v)
  {
    hide InOrder;
    if vectors == [] {
      assert [v][1..] == [] && VectorsInOrder([]) == [];
    } else {
      InOrderSnoc(vectors[1..], v);
      assert (vectors + [v])[1..] == vectors[1..] + [v];
    }
  }

  function Varints(numbers: seq<nat>): Bytes {
    if numbers == [] then [] else PutVarint(numbers[0]) + Varints(numbers[1..])
  }

  lemma {:induction false} VarintsSnoc(numbers: seq<nat>, n: nat)
    ensures Varints(numbers + [n]) == Varints(numbers) + PutVarint(n)
  {
    hide PutVarint;
    if numbers == [] {
      assert Varints([n][1..]) == [] && Varints([]) == [];
    } else {
      VarintsSnoc(numbers[1..], n);
      assert (numbers + [n])[1..] == numbers[1..] + [n];
    }
  }

  lemma {:induction false} NumbersAreVarints(numbers: seq<nat>, more: seq<nat>)
    ensures Varints(numbers + more) == Varints(numbers) + Numbers(more)
  {
    hide PutVarint, Varints;
    if more == [] {
      assert numbers + more == numbers;
    } else {
      var n := |more| - 1;
      NumbersAreVarints(numbers, more[..n]);
      Regroup(Varints(numbers), Numbers(more[..n]), PutVarint(more[n]));
      VarintsSnoc(numbers + more[..n], more[n]);
      assert numbers + more == numbers + more[..n] + [more[n]];
    }
  }

  lemma {:induction false} VectorsAreVarints(before: seq<nat>, vectors: seq<TermVector>)
    ensures Varints(before + VectorsInOrder(vectors)) == Varints(before) + VectorsBytes(vectors)
  {
    if vectors == [] {
      assert before + VectorsInOrder(vectors) == before;
    } else {
      LastVector(before, vectors);
      hide *;
      var n := |vectors| - 1;
      VectorsAreVarints(before, vectors[..n]);
      NumbersAreVarints(before + VectorsInOrder(vectors[..n]), InOrder(vectors[n]));
      Regroup(Varints(before), VectorsBytes(vectors[..n]), Numbers(InOrder(vectors[n])));
    }
  }

  lemma {:induction false} LastVector(before: seq<nat>, vectors: seq<TermVector>)
    requires vectors != []
    ensures
      var n := |vectors| - 1;
      && before + VectorsInOrder(vectors) == before + VectorsInOrder(vectors[..n]) + InOrder(vectors[n])
      && VectorsBytes(vectors) == VectorsBytes(vectors[..n]) + Numbers(InOrder(vectors[n]))
  {
    hide Numbers, InOrder, VectorNumbers, VectorsInOrder;
    var n := |vectors| - 1;
    SameOrder(vectors[n]);
    assert vectors == vectors[..n] + [vectors[n]];
    InOrderSnoc(vectors[..n], vectors[n]);
    Regroup(before, VectorsInOrder(vectors[..n]), InOrder(vectors[n]));
  }

  lemma {:induction false} SameOrder(v: TermVector)
    ensures VectorNumbers(v) == InOrder(v)
  {
  }

  lemma {:induction false} Regroup(a: seq<int>, b: seq<int>, c: seq<int>)
    ensures a + b + c == a + (b + c)
  {
  }

  /** Frequency, norm, and of each vector field, position, start, end, the number of array positions and those. */
  lemma {:induction false} TermValueHasFormat(v: TermValue)
    ensures TermValueBytes(v) == Varints([v.freq, v.norm] + VectorsInOrder(v.vectors))
  {
    VectorsAreVarints([v.freq, v.norm], v.vectors);
    hide PutVarint, VectorsBytes;
    assert [v.freq, v.norm][1..] == [v.norm] && [v.norm][1..] == [];
    assert Varints([v.norm]) == PutVarint(v.norm) + Varints([]) && Varints([]) == [];
  }

  lemma {:induction false} StoredKeyHasFormat(k: StoredKey)
    requires k.field < 0x1_0000
    ensures StoredKeyBytes(k) == [0x73] + k.doc + [0xff] + [k.field % 256, k.field / 256] + Varints(k.arrayPositions)
  {
    NumbersAreVarints([], k.arrayPositions);
    assert [] + k.arrayPositions == k.arrayPositions;
    assert Varints([]) == [];
    hide Numbers, Varints;
  }

  // ---- numbers in the index ----

  /** The shift added to 0x20, then the number with its sign bit flipped, shifted, in seven bits a byte, most
      significant first. */
  ghost predicate PrefixFormat(code: seq<int>, v: int, shift: nat)
    requires shift <= 63 && -0x8000_0000_0000_0000 <= v
  {
    PowerPositive(2, shift);
    && |code| == 2 + (63 - shift) / 7 && code[0] == 0x20 + shift
    && BigEndianDigits(code[1..], (v + 0x8000_0000_0000_0000) / Power(2, shift), 128)
  }

  lemma {:induction false} PowersOfTwo(n: nat)
    ensures Power(2, n) == PrefixCoded.Pow2(n)
  {
    if n > 0 {
      PowersOfTwo(n - 1);
    }
  }

  lemma {:induction false} Powers128(n: nat)
    ensures Power(128, n) == PrefixCoded.Pow2(7 * n)
  {
    if n > 0 {
      Powers128(n - 1);
      PrefixCoded.SevenMore(n);
    } else {
      assert PrefixCoded.Pow2(0) == 1;
    }
  }

  lemma {:induction false} DigitsAre(x: nat, n: nat)
    requires x < Power(128, n)
    ensures BigEndianDigits(PrefixCoded.Digits(x, n), x, 128)
  {
    if n > 0 {
      Shorter(x, 128, n - 1);
      DigitsAre(x / 128, n - 1);
      var b := PrefixCoded.Digits(x, n);
      forall i | 0 <= i < n
        ensures b[n - 1 - i] == Digit(x, 128, i)
      {
        if i > 0 {
          DigitShift(x, 128, i - 1);
        } else {
          DigitShift(x, 128, 0);
        }
      }
    }
  }

  lemma {:induction false} CodeHasFormat(v: int, shift: nat)
    requires PrefixCoded.IsInt64(v) && shift <= 63
    ensures PrefixFormat(PrefixCoded.Code(v, shift), v, shift)
  {
    var n, bits := PrefixCoded.NChars(shift), PrefixCoded.SortableBits(v);
    PowersOfTwo(shift);
    PrefixCoded.ShiftedFits(bits, shift);
    Powers128(n);
    hide Power, PrefixCoded.Pow2, PrefixCoded.Digits, BigEndianDigits;
    var x := PrefixCoded.Quotient(bits, PrefixCoded.Pow2(shift));
    DigitsAre(x, n);
    assert PrefixCoded.Code(v, shift)[1..] == PrefixCoded.Digits(x, n);
  }

  /** The bits of a double without sign are the number; those with a sign count down from -1. */
  lemma {:induction false} DoubleHasFormat(bits: nat)
    requires bits < 0x1_0000_0000_0000_0000
    ensures PrefixCoded.Float64ToInt64(bits)
         == if bits < 0x8000_0000_0000_0000 then bits else 0x7fff_ffff_ffff_ffff - bits
  {
  }
}
