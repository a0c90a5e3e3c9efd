/** The variable-length integers of the standard library's encoding/binary package, as contracts:
    seven bits a byte, least significant first, the top bit set on all bytes but the last. */
module Varint {
  import opened Options
  import opened Uvarint

  const MAX_VARINT_LEN64 := 10

  function PutVarint(v: nat): Bytes {
    if v < 128 then [v] else [v % 128 + 128] + PutVarint(v / 128)
  }

  datatype Read = Read(value: nat, length: nat)

  /** The number that starts the buffer, `i` bytes into it; nothing when it does not end or does not
      fit 64 bits. */
  function ReadFrom(b: Bytes, i: nat): Option<Read> {
    if b == [] || i >= MAX_VARINT_LEN64 then None
    else if b[0] < 128 then (if i == MAX_VARINT_LEN64 - 1 && b[0] > 1 then None else Some(Read(b[0], 1)))
    else
      match ReadFrom(b[1..], i + 1)
      case None => None
      case Some(r) => Some(Read(b[0] - 128 + 128 * r.value, r.length + 1))
  }

  function ReadVarint(b: Bytes): (r: Option<Read>)
    ensures r.Some? ==> 0 < r.value.length <= |b|
  {
    ReadLength(b, 0);
    ReadFrom(b, 0)
  }

  lemma {:induction false} ReadLength(b: Bytes, i: nat)
    ensures ReadFrom(b, i).Some? ==> 0 < ReadFrom(b, i).value.length <= |b|
  {
    if b != [] && i < MAX_VARINT_LEN64 && b[0] >= 128 {
      ReadLength(b[1..], i + 1);
    }
  }

  /** What still fits after `i` bytes. */
  function Room(i: nat): nat
    requires i < MAX_VARINT_LEN64
    decreases MAX_VARINT_LEN64 - i
  {
    if i == MAX_VARINT_LEN64 - 1 then 2 else 128 * Room(i + 1)
  }

  lemma {:induction false} RoomAtStart()
    ensures Room(0) == TWO_64
  {
    assert Room(8) == 256 && Room(7) == 0x8000 && Room(6) == 0x40_0000 && Room(5) == 0x2000_0000;
    assert Room(4) == 128 * Room(5) && Room(3) == 128 * Room(4) && Room(2) == 128 * Room(3);
    assert Room(1) == 128 * Room(2) && Room(0) == 128 * Room(1);
  }

  lemma {:induction false} ReadBackFrom(v: nat, i: nat, suffix: Bytes)
    requires i < MAX_VARINT_LEN64 && v < Room(i)
    ensures ReadFrom(PutVarint(v) + suffix, i) == Some(Read(v, |PutVarint(v)|))
    ensures |PutVarint(v)| <= MAX_VARINT_LEN64 - i
    decreases MAX_VARINT_LEN64 - i
  {
    if v >= 128 {
      ReadBackFrom(v / 128, i + 1, suffix);
      var b := PutVarint(v) + suffix;
      assert b[1..] == PutVarint(v / 128) + suffix && b[0] == v % 128 + 128;
    }
  }

  /** Reading undoes writing whatever follows, and a number takes at most ten bytes. */
  lemma {:induction false} ReadBack(v: nat, suffix: Bytes)
    requires v < TWO_64
    ensures ReadVarint(PutVarint(v) + suffix) == Some(Read(v, |PutVarint(v)|))
    ensures 0 < |PutVarint(v)| <= MAX_VARINT_LEN64
    ensures (PutVarint(v) + suffix)[|PutVarint(v)|..] == suffix
  {
    RoomAtStart();
    ReadBackFrom(v, 0, suffix);
  }

  method PutUvarint(buf: array<Byte>, used: nat, v: nat) returns (n: nat)
    requires v < TWO_64 && used + MAX_VARINT_LEN64 <= buf.Length
    modifies buf
    ensures n == |PutVarint(v)| <= MAX_VARINT_LEN64
    ensures buf[..used + n] == old(buf[..used]) + PutVarint(v)
  {
    ReadBack(v, []);
    var i, x := 0, v;
    while x >= 128
      invariant i + |PutVarint(x)| == |PutVarint(v)| && |PutVarint(x)| > 0
      invariant buf[..used + i] + PutVarint(x) == old(buf[..used]) + PutVarint(v)
    {
      ghost var done := buf[..used + i];
      buf[used + i] := x % 128 + 128;
      assert buf[..used + i + 1] == done + [x % 128 + 128];
      assert done + PutVarint(x) == (done + [x % 128 + 128]) + PutVarint(x / 128);
      x := x / 128;
      i := i + 1;
    }
    ghost var done := buf[..used + i];
    buf[used + i] := x;
    assert buf[..used + i + 1] == done + [x];
    return i + 1;
  }
}
