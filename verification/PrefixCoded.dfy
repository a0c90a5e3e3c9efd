/** Sortable numbers: the prefix coding of 64-bit integers, and the mapping of doubles to integers
    that it is composed with. */
module PrefixCoded {
  import opened Options
  import opened Uvarint

  const TWO_63 := 0x8000_0000_0000_0000
  const SHIFT_START_INT64 := 0x20

  predicate IsInt64(v: int) { -TWO_63 <= v < TWO_63 }

  function Pow2(n: nat): (r: nat)
    ensures r > 0
  {
    if n == 0 then 1 else 2 * Pow2(n - 1)
  }

  lemma {:induction false} Pow2Add(m: nat, n: nat)
    ensures Pow2(m + n) == Pow2(m) * Pow2(n)
  {
    if m > 0 {
      Pow2Add(m - 1, n);
    }
  }

  lemma {:induction false} Pow2Values()
    ensures Pow2(7) == 128 && Pow2(63) == TWO_63 && Pow2(64) == TWO_64
  {
    assert Pow2(7) == 128;
    Pow2Add(7, 7);
    Pow2Add(14, 14);
    Pow2Add(28, 28);
    Pow2Add(56, 7);
    assert Pow2(64) == 2 * Pow2(63);
  }

  // ---- base 128 ----

  /** `n` bytes of seven bits, most significant first. */
  function Digits(x: nat, n: nat): (r: Bytes)
    ensures |r| == n
  {
    if n == 0 then [] else Digits(x / 128, n - 1) + [x % 128]
  }

  lemma {:induction false} SevenMore(n: nat)
    requires n > 0
    ensures Pow2(7 * n) == 128 * Pow2(7 * (n - 1))
  {
    Pow2Add(7, 7 * (n - 1));
    Pow2Values();
  }

  lemma {:induction false} DigitsOrder(a: nat, b: nat, n: nat)
    requires a < b < Pow2(7 * n)
    ensures LexLess(Digits(a, n), Digits(b, n))
  {
    SevenMore(n);
    if a / 128 < b / 128 {
      DigitsOrder(a / 128, b / 128, n - 1);
      LexExtend(Digits(a / 128, n - 1), Digits(b / 128, n - 1), [a % 128], [b % 128]);
    } else {
      LexSamePrefix(Digits(a / 128, n - 1), [a % 128], [b % 128]);
    }
  }

  /** One step of reading digits: shift left by seven and OR the byte in, in 64 bits. Bit 7 of a
      byte above 127 falls on the lowest bit of what was read before. */
  function ShiftOr(x: nat, b: Byte): nat {
    (x * 128 + b - (if b >= 128 && x % 2 == 1 then 128 else 0)) % TWO_64
  }

  function Accumulate(b: Bytes): nat {
    if b == [] then 0 else ShiftOr(Accumulate(b[..|b| - 1]), b[|b| - 1])
  }

  lemma {:induction false} AccumulateDigits(x: nat, n: nat)
    requires x < Pow2(7 * n) && x < TWO_64
    ensures Accumulate(Digits(x, n)) == x
  {
    if n > 0 {
      SevenMore(n);
      AccumulateDigits(x / 128, n - 1);
      var d := Digits(x, n);
      assert d[..|d| - 1] == Digits(x / 128, n - 1);
    }
  }

  // ---- the code ----

  /** How many digits follow the first byte. */
  function NChars(shift: nat): nat
    requires shift <= 63
  {
    (63 - shift) / 7 + 1
  }

  /** The number with its sign bit flipped, as unsigned. */
  function SortableBits(v: int): nat
    requires IsInt64(v)
  {
    v + TWO_63
  }

  function Quotient(u: nat, d: nat): nat
    requires d > 0
  {
    u / d
  }

  function Code(v: int, shift: nat): Bytes
    requires IsInt64(v) && shift <= 63
  {
    [SHIFT_START_INT64 + shift] + Digits(Quotient(SortableBits(v), Pow2(shift)), NChars(shift))
  }

  method NewPrefixCodedInt64(v: int, shift: nat) returns (r: Result<Bytes>)
    requires IsInt64(v)
    ensures shift > 63 ==> r.Failure?
    ensures shift <= 63 ==> r == Success(Code(v, shift))
  {
    if shift > 63 {
      return Failure("cannot shift");
    }
    hide Pow2, Digits, Quotient;
    var nChars: nat := (63 - shift) / 7 + 1;
    var rv := new Byte[nChars + 1];
    rv[0] := SHIFT_START_INT64 + shift;
    var sortableBits: nat := SortableBits(v);
    sortableBits := Quotient(sortableBits, Pow2(shift));
    ghost var start := sortableBits;
    assert rv[nChars + 1..] == [];
    while nChars > 0
      invariant 0 <= nChars < rv.Length && rv.Length == NChars(shift) + 1
      invariant rv[0] == SHIFT_START_INT64 + shift
      invariant Digits(start, NChars(shift)) == Digits(sortableBits, nChars) + rv[nChars + 1..]
    {
      ghost var done := rv[nChars + 1..];
      LastDigit(sortableBits, nChars, done);
      rv[nChars] := sortableBits % 128;
      assert rv[nChars..] == [sortableBits % 128] + done;
      nChars := nChars - 1;
      sortableBits := sortableBits / 128;
    }
    NoDigits(sortableBits, rv[1..]);
    assert rv[..] == [rv[0]] + rv[1..];
    return Success(rv[..]);
  }

  lemma {:induction false} LastDigit(x: nat, n: nat, done: Bytes)
    requires n > 0
    ensures Digits(x, n) + done == Digits(x / 128, n - 1) + ([x % 128] + done)
  {
  }

  lemma {:induction false} NoDigits(x: nat, done: Bytes)
    ensures Digits(x, 0) + done == done
  {
  }

  /** Byte subtraction wraps around; the largest shift is refused. */
  function Shift(p: Bytes): Result<nat> {
    if |p| > 0 && (p[0] - SHIFT_START_INT64) % 256 < 63 then Success((p[0] - SHIFT_START_INT64) % 256)
    else Failure("invalid prefix coded value")
  }

  /** The value read back: shifted left in 64 bits, sign bit flipped, as signed. */
  function Decoded(digits: Bytes, shift: nat): int {
    (Accumulate(digits) * Pow2(shift)) % TWO_64 - TWO_63
  }

  method Int64(p: Bytes) returns (r: Result<int>)
    ensures r == match Shift(p) case Success(shift) => Success(Decoded(p[1..], shift)) case Failure(e) => Failure(e)
  {
    var shift := Shift(p);
    if shift.Failure? {
      return Failure(shift.error);
    }
    var sortableBits := 0;
    var rest := p[1..];
    for i := 0 to |rest|
      invariant sortableBits == Accumulate(rest[..i])
    {
      assert rest[..i + 1][..i] == rest[..i];
      sortableBits := ShiftOr(sortableBits, rest[i]);
    }
    assert rest[..|rest|] == rest;
    return Success((sortableBits * Pow2(shift.value)) % TWO_64 - TWO_63);
  }

  function ValidPrefixCodedTermBytes(p: Bytes): (bool, nat) {
    if |p| > 0 then
      if p[0] < SHIFT_START_INT64 || p[0] > SHIFT_START_INT64 + 63 then (false, 0)
      else
        var shift := p[0] - SHIFT_START_INT64;
        if |p| != NChars(shift) + 1 then (false, 0) else (true, shift)
    else (false, 0)
  }

  // ---- what the code promises ----

  /** The shifted number fits its digits. */
  lemma {:induction false} ShiftedFits(u: nat, shift: nat)
    requires u < TWO_64 && shift <= 63
    ensures u / Pow2(shift) < Pow2(64 - shift) <= Pow2(7 * NChars(shift))
    ensures u / Pow2(shift) <= u
  {
    Pow2Values();
    Pow2Add(shift, 64 - shift);
    QuotientBelow(u, Pow2(shift), Pow2(64 - shift));
    var more := 7 * NChars(shift) - (64 - shift);
    Pow2Add(64 - shift, more);
    TimesAtLeast(Pow2(64 - shift), Pow2(more));
  }

  lemma {:induction false} QuotientBelow(u: nat, d: nat, q: nat)
    requires d > 0 && u < d * q
    ensures u / d < q && u / d <= u
  {
    if u / d >= q {
      TimesMonotone(d, q, u / d);
    }
    TimesAtLeast(u / d, d);
  }

  lemma {:induction false} TimesMonotone(d: nat, a: nat, b: nat)
    requires a <= b
    ensures d * a <= d * b
  {
  }

  lemma {:induction false} TimesAtLeast(x: nat, y: nat)
    requires y > 0
    ensures x <= x * y
  {
  }

  /** The number with its low bits cleared. */
  function ClearLow(v: int, shift: nat): int
  {
    v / Pow2(shift) * Pow2(shift)
  }

  /** Decoding gives the number with its shifted-out bits cleared, for every shift but the largest,
      which is refused. */
  lemma {:induction false} CodeReadsBack(v: int, shift: nat)
    requires IsInt64(v) && shift <= 63
    ensures Shift(Code(v, shift)).Success? <==> shift < 63
    ensures shift < 63 ==>
              Shift(Code(v, shift)) == Success(shift) && Decoded(Code(v, shift)[1..], shift) == ClearLow(v, shift)
  {
    hide Digits, Accumulate, Pow2;
    var x := Quotient(SortableBits(v), Pow2(shift));
    ShiftedFits(SortableBits(v), shift);
    assert Code(v, shift)[1..] == Digits(x, NChars(shift));
    AccumulateDigits(x, NChars(shift));
    ShiftBack(v, shift);
  }

  lemma {:induction false} ShiftBack(v: int, shift: nat)
    requires IsInt64(v) && shift <= 63
    ensures 0 <= SortableBits(v) / Pow2(shift) * Pow2(shift) < TWO_64
    ensures SortableBits(v) / Pow2(shift) * Pow2(shift) - TWO_63 == ClearLow(v, shift)
  {
    Pow2Values();
    Pow2Add(63 - shift, shift);
    var p, q := Pow2(shift), Pow2(63 - shift);
    assert TWO_63 == q * p;
    DivideShifted(v, q, p);
    DivideBelow(SortableBits(v), p);
  }

  lemma {:induction false} DivideBelow(u: nat, p: nat)
    requires p > 0
    ensures 0 <= u / p * p <= u
  {
  }

  lemma {:induction false} DivideShifted(v: int, q: nat, p: nat)
    requires p > 0
    ensures (v + q * p) / p == v / p + q
    ensures (v + q * p) / p * p == v / p * p + q * p
  {
    var k := v / p;
    assert v == k * p + v % p;
    assert v + q * p == (k + q) * p + v % p by { Distribute(k, q, p); }
    QuotientIs(v + q * p, k + q, v % p, p);
    Distribute(k, q, p);
  }

  lemma {:induction false} Distribute(a: int, b: int, c: int)
    ensures (a + b) * c == a * c + b * c
  {
  }

  lemma {:induction false} Gap(a: int, b: int, p: int)
    requires a < b && p > 0
    ensures a * p + p <= b * p
  {
    Distribute(a, b - a, p);
    Distribute(1, b - a - 1, p);
  }

  lemma {:induction false} QuotientIs(x: int, k: int, r: int, p: nat)
    requires p > 0 && x == k * p + r && 0 <= r < p
    ensures x / p == k
  {
    var q := x / p;
    assert x == q * p + x % p;
    if q < k {
      Gap(q, k, p);
    }
    if k < q {
      Gap(k, q, p);
    }
  }

  lemma {:induction false} SortableQuotient(v: int, shift: nat)
    requires IsInt64(v) && shift <= 63
    ensures SortableBits(v) / Pow2(shift) == v / Pow2(shift) + Pow2(63 - shift)
  {
    Pow2Values();
    Pow2Add(63 - shift, shift);
    DivideShifted(v, Pow2(63 - shift), Pow2(shift));
  }

  lemma {:induction false} DigitsSort(x: nat, y: nat, n: nat, first: Byte)
    requires x < Pow2(7 * n) && y < Pow2(7 * n)
    ensures LexLess([first] + Digits(x, n), [first] + Digits(y, n)) <==> x < y
    ensures [first] + Digits(x, n) == [first] + Digits(y, n) <==> x == y
  {
    hide Digits, Pow2;
    var a, b := [first] + Digits(x, n), [first] + Digits(y, n);
    if x < y {
      DigitsOrder(x, y, n);
      LexSamePrefix([first], Digits(x, n), Digits(y, n));
      LexAsymmetric(a, b);
    } else if y < x {
      DigitsOrder(y, x, n);
      LexSamePrefix([first], Digits(y, n), Digits(x, n));
      LexAsymmetric(b, a);
    } else {
      LexIrreflexive(a);
    }
  }

  /** Byte order of codes of the same shift is the order of the shifted numbers. */
  lemma {:induction false} CodesSort(a: int, b: int, shift: nat)
    requires IsInt64(a) && IsInt64(b) && shift <= 63
    ensures LexLess(Code(a, shift), Code(b, shift)) <==> a / Pow2(shift) < b / Pow2(shift)
    ensures Code(a, shift) == Code(b, shift) <==> a / Pow2(shift) == b / Pow2(shift)
  {
    hide Digits, Pow2, LexLess;
    SortableQuotient(a, shift);
    SortableQuotient(b, shift);
    ShiftedFits(SortableBits(a), shift);
    ShiftedFits(SortableBits(b), shift);
    DigitsSort(Quotient(SortableBits(a), Pow2(shift)), Quotient(SortableBits(b), Pow2(shift)), NChars(shift), SHIFT_START_INT64 + shift);
  }

  /** The validator accepts every code, also that of the largest shift. */
  lemma {:induction false} CodesAreValid(v: int, shift: nat)
    requires IsInt64(v) && shift <= 63
    ensures ValidPrefixCodedTermBytes(Code(v, shift)) == (true, shift)
  {
  }

  // ---- doubles ----

  /** The bits of a double: sign, eleven bits of exponent, 52 bits of fraction. */
  const TWO_52 := 0x10_0000_0000_0000

  predicate IsBits(bits: nat) { bits < TWO_64 }

  function Magnitude(bits: nat): nat { bits % TWO_63 }
  predicate Negative(bits: nat) { bits >= TWO_63 }
  function Exponent(bits: nat): nat { Magnitude(bits) / TWO_52 }

  predicate Finite(bits: nat) { IsBits(bits) && Exponent(bits) < 2047 }

  /** The absolute value in units of the smallest subnormal double. */
  function Units(magnitude: nat): nat {
    var (e, f) := (magnitude / TWO_52, magnitude % TWO_52);
    if e == 0 then f else (TWO_52 + f) * Pow2(e - 1)
  }

  function Value(bits: nat): int {
    if Negative(bits) then -(Units(Magnitude(bits)) as int) else Units(Magnitude(bits))
  }

  /** The bits as a signed number; of negative ones all but the sign bit are flipped. */
  function Float64ToInt64(bits: nat): (r: int)
    requires IsBits(bits)
  {
    var fasint := if bits >= TWO_63 then bits - TWO_64 else bits;
    if fasint < 0 then FlipLow63(fasint) else fasint
  }

  /** XOR with 0x7fffffffffffffff of a negative number. */
  function FlipLow63(i: int): int
    requires -TWO_63 <= i < 0
  {
    -TWO_63 + (TWO_63 - 1 - (i + TWO_63))
  }

  function Int64ToFloat64(i: int): nat
    requires IsInt64(i)
  {
    var j := if i < 0 then FlipLow63(i) else i;
    if j < 0 then j + TWO_64 else j
  }

  lemma {:induction false} FloatBitsReadBack(bits: nat, i: int)
    requires IsBits(bits) && IsInt64(i)
    ensures IsInt64(Float64ToInt64(bits)) && Int64ToFloat64(Float64ToInt64(bits)) == bits
    ensures IsBits(Int64ToFloat64(i)) && Float64ToInt64(Int64ToFloat64(i)) == i
  {
  }

  lemma {:induction false} UnitsGrow(a: nat, b: nat)
    requires a < b
    ensures Units(a) < Units(b)
    decreases b - a
  {
    var (e, f) := (a / TWO_52, a % TWO_52);
    NextUnits(a);
    if a + 1 < b {
      UnitsGrow(a + 1, b);
    }
  }

  lemma {:induction false} NextUnits(a: nat)
    ensures Units(a) < Units(a + 1)
  {
    var (e, f) := (a / TWO_52, a % TWO_52);
    if f + 1 < TWO_52 {
      assert (a + 1) / TWO_52 == e && (a + 1) % TWO_52 == f + 1;
      if e > 0 {
        Distribute(TWO_52 + f, 1, Pow2(e - 1));
      }
    } else {
      assert (a + 1) / TWO_52 == e + 1 && (a + 1) % TWO_52 == 0;
      if e > 0 {
        assert Pow2(e) == 2 * Pow2(e - 1);
        assert (TWO_52 + f) * Pow2(e - 1) < (2 * TWO_52) * Pow2(e - 1) by {
          Distribute(TWO_52 + f, 1, Pow2(e - 1));
          assert TWO_52 + f + 1 == 2 * TWO_52;
        }
      }
    }
  }

  lemma {:induction false} UnitsSort(m: nat, n: nat)
    ensures Units(m) < Units(n) <==> m < n
    ensures Units(m) == Units(n) <==> m == n
    ensures Units(m) == 0 <==> m == 0
  {
    if m < n {
      UnitsGrow(m, n);
    } else if n < m {
      UnitsGrow(n, m);
    }
    assert Units(0) == 0;
    if m > 0 {
      UnitsGrow(0, m);
    }
  }

  /** Integers order finite doubles by value, with the negative zero just below the positive one,
      as section 5.10 (totalOrder) of IEEE 754-2019 does. */
  lemma {:induction false} DoublesSort(a: nat, b: nat)
    requires Finite(a) && Finite(b)
    ensures Float64ToInt64(a) < Float64ToInt64(b) <==>
              Value(a) < Value(b) || (Value(a) == Value(b) == 0 && Negative(a) && !Negative(b))
    ensures a == TWO_63 && b == 0 ==> Float64ToInt64(b) == Float64ToInt64(a) + 1
  {
    hide Units, Exponent;
    UnitsSort(Magnitude(a), Magnitude(b));
    UnitsSort(Magnitude(b), Magnitude(a));
    SignAndMagnitude(a);
    SignAndMagnitude(b);
    hide Magnitude, Float64ToInt64;
  }

  lemma {:induction false} SignAndMagnitude(bits: nat)
    requires IsBits(bits)
    ensures Float64ToInt64(bits) == if Negative(bits) then -1 - Magnitude(bits) else Magnitude(bits)
  {
  }

  /** Hence codes of unshifted doubles sort as the doubles do, the negative zero before the other. */
  lemma {:induction false} CodesOfDoublesSort(a: nat, b: nat)
    requires Finite(a) && Finite(b)
    ensures IsInt64(Float64ToInt64(a)) && IsInt64(Float64ToInt64(b))
    ensures LexLess(Code(Float64ToInt64(a), 0), Code(Float64ToInt64(b), 0)) <==>
              Value(a) < Value(b) || (Value(a) == Value(b) == 0 && Negative(a) && !Negative(b))
  {
    hide *;
    FiniteFits(a);
    FiniteFits(b);
    DoublesSort(a, b);
    CodesSort(Float64ToInt64(a), Float64ToInt64(b), 0);
    Unshifted(Float64ToInt64(a));
    Unshifted(Float64ToInt64(b));
  }

  lemma {:induction false} FiniteFits(bits: nat)
    requires Finite(bits)
    ensures IsBits(bits) && IsInt64(Float64ToInt64(bits))
  {
    FloatBitsReadBack(bits, 0);
  }

  lemma {:induction false} Unshifted(v: int)
    ensures v / Pow2(0) == v
  {
  }
}
