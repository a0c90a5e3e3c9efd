/** The order-preserving, length-prefixed encoding of 64-bit numbers that serves as key of the
    snapshot and segment buckets. */
module Uvarint {
  import opened Options

  type Byte = b: int | 0 <= b < 256
  type Bytes = seq<Byte>

  const INT_ZERO := 136
  const INT_SMALL := 109
  const INT_MAX := 253
  const TWO_64 := 0x1_0000_0000_0000_0000

  /** The low `n` bytes, most significant first. */
  function BigEndian(v: nat, n: nat): (r: Bytes)
    ensures |r| == n
  {
    if n == 0 then [] else BigEndian(v / 256, n - 1) + [v % 256]
  }

  /** How many bytes follow the length byte. */
  function Width(v: nat): nat {
    if v <= INT_SMALL then 0
    else if v <= 0xff then 1
    else if v <= 0xffff then 2
    else if v <= 0xff_ffff then 3
    else if v <= 0xffff_ffff then 4
    else if v <= 0xff_ffff_ffff then 5
    else if v <= 0xffff_ffff_ffff then 6
    else if v <= 0xff_ffff_ffff_ffff then 7
    else 8
  }

  function Encode(v: nat): Bytes
    requires v < TWO_64
  {
    if v <= INT_SMALL then [INT_ZERO + v] else [INT_MAX - 8 + Width(v)] + BigEndian(v, Width(v))
  }

  function FromBytes(b: Bytes): nat {
    if b == [] then 0 else FromBytes(b[..|b| - 1]) * 256 + b[|b| - 1]
  }

  datatype Decoded = Decoded(rest: Bytes, value: nat)

  /** The rest of the input and the number. A first byte below `INT_ZERO` is not refused: the
      difference is negative and wraps around. */
  function Decode(b: Bytes): Result<Decoded> {
    if b == [] then Failure("insufficient bytes to decode uvarint value") else
      var length := b[0] - INT_ZERO;
      if length <= INT_SMALL then Success(Decoded(b[1..], length % TWO_64)) else
        var n := length - INT_SMALL;
        if n > 8 then Failure("invalid uvarint length")
        else if |b| - 1 < n then Failure("insufficient bytes to decode uvarint value")
        else Success(Decoded(b[1 + n..], FromBytes(b[1..1 + n])))
  }

  method DecodeUvarintAscending(b: Bytes) returns (r: Result<Decoded>)
    ensures r == Decode(b)
  {
    if |b| == 0 {
      return Failure("insufficient bytes to decode uvarint value");
    }
    var length := b[0] - INT_ZERO;
    var rest := b[1..];
    if length <= INT_SMALL {
      return Success(Decoded(rest, length % TWO_64));
    }
    length := length - INT_SMALL;
    if length < 0 || length > 8 {
      return Failure("invalid uvarint length");
    } else if |rest| < length {
      return Failure("insufficient bytes to decode uvarint value");
    }
    var v := 0;
    for i := 0 to length
      invariant v == FromBytes(rest[..i]) && v < Power256(i)
    {
      assert rest[..i + 1][..i] == rest[..i];
      ShiftFits(v, i, rest[i]);
      v := (v * 256 + rest[i]) % TWO_64;
    }
    assert rest[..length] == b[1..1 + length] && rest[length..] == b[1 + length..];
    return Success(Decoded(rest[length..], v));
  }

  function Power256(n: nat): nat {
    if n == 0 then 1 else 256 * Power256(n - 1)
  }

  /** Eight bytes never overflow the accumulator. */
  lemma {:induction false} ShiftFits(v: nat, i: nat, t: Byte)
    requires v < Power256(i) && i < 8
    ensures v * 256 + t < Power256(i + 1) <= TWO_64
  {
    PowerBelow(i + 1);
  }

  lemma {:induction false} PowerBelow(i: nat)
    requires i <= 8
    ensures Power256(i) <= TWO_64
  {
    assert Power256(0) == 1 && Power256(1) == 256 && Power256(2) == 0x1_0000 && Power256(3) == 0x100_0000;
    assert Power256(4) == 256 * Power256(3) && Power256(5) == 256 * Power256(4) && Power256(6) == 256 * Power256(5);
    assert Power256(7) == 256 * Power256(6) && Power256(8) == 256 * Power256(7);
  }

  lemma {:induction false} WidthFits(v: nat)
    requires INT_SMALL < v < TWO_64
    ensures 1 <= Width(v) <= 8 && v < Power256(Width(v))
  {
    assert Power256(0) == 1 && Power256(1) == 256 && Power256(2) == 0x1_0000 && Power256(3) == 0x100_0000;
    assert Power256(4) == 256 * Power256(3) && Power256(5) == 256 * Power256(4) && Power256(6) == 256 * Power256(5);
    assert Power256(7) == 256 * Power256(6) && Power256(8) == 256 * Power256(7);
  }

  lemma {:induction false} BigEndianInverse(v: nat, n: nat)
    requires v < Power256(n)
    ensures FromBytes(BigEndian(v, n)) == v
  {
    if n > 0 {
      BigEndianInverse(v / 256, n - 1);
      var b := BigEndian(v, n);
      assert b[..|b| - 1] == BigEndian(v / 256, n - 1);
    }
  }

  /** Decoding undoes encoding and leaves whatever follows. */
  lemma {:induction false} RoundTrip(v: nat, suffix: Bytes)
    requires v < TWO_64
    ensures Decode(Encode(v) + suffix) == Success(Decoded(suffix, v))
  {
    var b := Encode(v) + suffix;
    if v > INT_SMALL {
      WidthFits(v);
      BigEndianInverse(v, Width(v));
      assert b[1..1 + Width(v)] == BigEndian(v, Width(v));
      assert b[1 + Width(v)..] == suffix;
    } else {
      assert b[1..] == suffix;
    }
  }

  /** The order of keys in a bucket. */
  predicate LexLess(a: Bytes, b: Bytes) {
    if b == [] then false
    else if a == [] then true
    else a[0] < b[0] || (a[0] == b[0] && LexLess(a[1..], b[1..]))
  }

  lemma {:induction false} LexExtend(p: Bytes, q: Bytes, x: Bytes, y: Bytes)
    requires |p| == |q| && LexLess(p, q)
    ensures LexLess(p + x, q + y)
  {
    if p[0] == q[0] {
      LexExtend(p[1..], q[1..], x, y);
      assert (p + x)[1..] == p[1..] + x && (q + y)[1..] == q[1..] + y;
    }
  }

  lemma {:induction false} LexSamePrefix(p: Bytes, x: Bytes, y: Bytes)
    requires LexLess(x, y)
    ensures LexLess(p + x, p + y)
  {
    if p == [] {
      assert p + x == x && p + y == y;
    } else {
      LexSamePrefix(p[1..], x, y);
      assert (p + x)[1..] == p[1..] + x && (p + y)[1..] == p[1..] + y;
    }
  }

  lemma {:induction false} LexAsymmetric(a: Bytes, b: Bytes)
    requires LexLess(a, b)
    ensures !LexLess(b, a) && a != b
  {
    if a != [] && a[0] == b[0] {
      LexAsymmetric(a[1..], b[1..]);
    }
  }

  lemma {:induction false} LexTransitive(a: Bytes, b: Bytes, c: Bytes)
    requires LexLess(a, b) && LexLess(b, c)
    ensures LexLess(a, c)
  {
    if a != [] && a[0] == b[0] && b[0] == c[0] {
      LexTransitive(a[1..], b[1..], c[1..]);
    }
  }

  lemma {:induction false} LexTotal(a: Bytes, b: Bytes)
    ensures LexLess(a, b) || a == b || LexLess(b, a)
  {
    if a != [] && b != [] && a[0] == b[0] {
      LexTotal(a[1..], b[1..]);
      assert a == [a[0]] + a[1..] && b == [b[0]] + b[1..];
    }
  }

  lemma {:induction false} BigEndianOrder(a: nat, b: nat, n: nat)
    requires a < b < Power256(n)
    ensures LexLess(BigEndian(a, n), BigEndian(b, n))
  {
    if a / 256 < b / 256 {
      BigEndianOrder(a / 256, b / 256, n - 1);
      LexExtend(BigEndian(a / 256, n - 1), BigEndian(b / 256, n - 1), [a % 256], [b % 256]);
    } else {
      LexSamePrefix(BigEndian(a / 256, n - 1), [a % 256], [b % 256]);
    }
  }

  /** Keys are ordered as the numbers are, whatever follows them. */
  lemma {:induction false} EncodeOrder(a: nat, b: nat, x: Bytes, y: Bytes)
    requires a < b < TWO_64
    ensures LexLess(Encode(a) + x, Encode(b) + y)
  {
    if b > INT_SMALL && a > INT_SMALL && Width(a) == Width(b) {
      WidthFits(b);
      BigEndianOrder(a, b, Width(b));
      SameLengthByte(BigEndian(a, Width(a)), BigEndian(b, Width(b)), INT_MAX - 8 + Width(b), x, y);
    } else {
      assert Encode(a)[0] < Encode(b)[0];
    }
  }

  lemma {:induction false} SameLengthByte(p: Bytes, q: Bytes, length: Byte, x: Bytes, y: Bytes)
    requires |p| == |q| && LexLess(p, q)
    ensures LexLess([length] + p + x, [length] + q + y)
  {
    LexExtend(p, q, x, y);
    LexSamePrefix([length], p + x, q + y);
    assert [length] + p + x == [length] + (p + x) && [length] + q + y == [length] + (q + y);
  }

  /** Hence key order and number order coincide, in both directions. */
  lemma {:induction false} EncodeOrderIff(a: nat, b: nat)
    requires a < TWO_64 && b < TWO_64
    ensures LexLess(Encode(a), Encode(b)) <==> a < b
    ensures Encode(a) == Encode(b) <==> a == b
  {
    assert Encode(a) + [] == Encode(a) && Encode(b) + [] == Encode(b);
    if a < b {
      EncodeOrder(a, b, [], []);
      LexAsymmetric(Encode(a), Encode(b));
    } else if b < a {
      EncodeOrder(b, a, [], []);
      LexAsymmetric(Encode(b), Encode(a));
    } else {
      LexIrreflexive(Encode(a));
    }
  }

  lemma {:induction false} LexIrreflexive(a: Bytes)
    ensures !LexLess(a, a)
  {
    if a != [] {
      LexIrreflexive(a[1..]);
    }
  }

  /** No key is a proper prefix of another. */
  lemma {:induction false} EncodePrefixFree(a: nat, b: nat)
    requires a < TWO_64 && b < TWO_64 && Encode(a) <= Encode(b)
    ensures a == b
  {
    var suffix := Encode(b)[|Encode(a)|..];
    RoundTrip(a, suffix);
    RoundTrip(b, []);
    assert Encode(a) + suffix == Encode(b) + [];
  }

  /** Keys never collide with the one-byte names of the meta and internal buckets. */
  lemma {:induction false} EncodeFirstByte(v: nat)
    requires v < TWO_64
    ensures Encode(v) != [] && Encode(v)[0] >= INT_ZERO
    ensures Encode(v)[0] != 'm' as int && Encode(v)[0] != 'i' as int
  {
  }

  // ---- what decodes without being a key ----

  lemma {:induction false} FirstByteBounds(p: Bytes)
    requires p != []
    ensures p[0] * Power256(|p| - 1) <= FromBytes(p) < (p[0] + 1) * Power256(|p| - 1)
  {
    var n := |p| - 1;
    if n > 0 {
      FirstByteBounds(p[..n]);
      Scale(p[0], Power256(n - 1), FromBytes(p[..n]), p[n]);
    } else {
      assert p[..0] == [];
    }
  }

  lemma {:induction false} Scale(top: nat, power: nat, v: nat, t: Byte)
    requires top * power <= v < (top + 1) * power
    ensures top * (256 * power) <= v * 256 + t < (top + 1) * (256 * power)
  {
    assert (top + 1) * power - v >= 1;
    assert top * (256 * power) == 256 * (top * power) && (top + 1) * (256 * power) == 256 * ((top + 1) * power);
  }

  lemma {:induction false} SameBytes(p: Bytes)
    ensures BigEndian(FromBytes(p), |p|) == p
  {
    if p != [] {
      SameBytes(p[..|p| - 1]);
    }
  }

  /** A number of `n` bytes needs all of them just when the first is not 0, or, for a single byte,
      when it is too large to be put into the length byte. */
  lemma {:induction false} WidthOfBytes(p: Bytes)
    requires 1 <= |p| <= 8
    ensures FromBytes(p) < TWO_64
    ensures Width(FromBytes(p)) == |p| <==> if |p| == 1 then p[0] > INT_SMALL else p[0] > 0
  {
    FirstByteBounds(p);
    var v, n := FromBytes(p), |p|;
    assert Power256(0) == 1 && Power256(1) == 256 && Power256(2) == 0x1_0000 && Power256(3) == 0x100_0000;
    assert Power256(4) == 256 * Power256(3) && Power256(5) == 256 * Power256(4) && Power256(6) == 256 * Power256(5);
    assert Power256(7) == 256 * Power256(6) && Power256(8) == 256 * Power256(7);
    assert v < Power256(n) by { var top: nat := p[0]; TimesAtMost(top + 1, Power256(n - 1)); }
    if p[0] > 0 {
      assert v >= Power256(n - 1) by { TimesAtLeast(p[0], Power256(n - 1)); }
    }
  }

  lemma {:induction false} TimesAtMost(a: nat, b: nat)
    requires a <= 256
    ensures a * b <= 256 * b
  {
  }

  lemma {:induction false} TimesAtLeast(a: nat, b: nat)
    requires a >= 1
    ensures a * b >= b
  {
  }

  /** Input that starts with a key: a first byte from 136 on and no byte more than the number needs. */
  predicate StartsWithKey(b: Bytes) {
    && b != [] && b[0] >= INT_ZERO
    && (b[0] - INT_ZERO <= INT_SMALL ||
        var n := b[0] - INT_ZERO - INT_SMALL;
        n <= 8 && |b| > n && (if n == 1 then b[1] > INT_SMALL else b[1] > 0))
  }

  predicate IsKeyAndRest(b: Bytes, d: Decoded) {
    d.value < TWO_64 && b == Encode(d.value) + d.rest
  }

  /** Decoding gives back a number and a rest that encode to the input exactly when the input starts
      with a key. Other input may be decoded as well. */
  lemma {:induction false} DecodesAKeyIff(b: Bytes)
    ensures Decode(b).Success? && IsKeyAndRest(b, Decode(b).value) <==> StartsWithKey(b)
  {
    if b != [] && b[0] >= INT_ZERO {
      var length := b[0] - INT_ZERO;
      if length <= INT_SMALL {
        assert Encode(length)[0] == b[0] && b == [b[0]] + b[1..];
      } else if length - INT_SMALL <= 8 && |b| - 1 >= length - INT_SMALL {
        LongKeyIff(b, length - INT_SMALL);
      }
    } else if b != [] {
      LowFirstByteWraps(b);
      EncodeFirstByte(Decode(b).value.value);
      assert (Encode(Decode(b).value.value) + Decode(b).value.rest)[0] == Encode(Decode(b).value.value)[0];
    }
  }

  lemma {:induction false} LongKeyIff(b: Bytes, n: nat)
    requires 1 <= n <= 8 && |b| > n && b[0] == INT_ZERO + INT_SMALL + n
    ensures Decode(b) == Success(Decoded(b[1 + n..], FromBytes(b[1..1 + n])))
    ensures IsKeyAndRest(b, Decode(b).value) <==> if n == 1 then b[1] > INT_SMALL else b[1] > 0
  {
    var p, rest := b[1..1 + n], b[1 + n..];
    WidthOfBytes(p);
    SameBytes(p);
    assert b == [b[0]] + p + rest;
    var v := FromBytes(p);
    if b == Encode(v) + rest {
      assert |Encode(v)| == 1 + n;
      assert Width(v) == n;
    }
  }

  /** A first byte that no encoding starts with is nevertheless decoded, to a huge number. */
  lemma {:induction false} LowFirstByteWraps(b: Bytes)
    requires b != [] && b[0] < INT_ZERO
    ensures Decode(b) == Success(Decoded(b[1..], TWO_64 - (INT_ZERO - b[0])))
    ensures 0 <= TWO_64 - (INT_ZERO - b[0]) < TWO_64
  {
    assert (b[0] - INT_ZERO) % TWO_64 == TWO_64 - (INT_ZERO - b[0]);
  }

  /** The name of the meta bucket, read as a key, and a number written with a byte too many. */
  lemma {:induction false} DecodedWithoutBeingKeys()
    ensures Decode(['m' as int]) == Success(Decoded([], TWO_64 - 27))
    ensures Decode([INT_MAX - 7, 5]) == Success(Decoded([], 5)) && Encode(5) == [INT_ZERO + 5]
  {
    LowFirstByteWraps(['m' as int]);
    assert ['m' as int][1..] == [];
    var b: Bytes := [INT_MAX - 7, 5];
    LongKeyIff(b, 1);
    assert b[1..2] == [5] && b[2..] == [];
    var five: Bytes := [5];
    assert five[..0] == [] && FromBytes(five) == 5;
  }
}
