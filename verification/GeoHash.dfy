/** Geohash: bisection of longitude and latitude in turn, five bits a character. The bounds are
    multiples of 180 and 90 over powers of two, which doubles represent exactly, so reals lose
    nothing here. */
module GeoHash {
  const ALPHABET := "0123456789bcdefghjkmnpqrstuvwxyz"
  const PRECISION := 12

  /** Where the bisection stands: whether longitude is next, and the bounds. */
  datatype Cell = Cell(even: bool, lat0: real, lat1: real, lon0: real, lon1: real)

  const START := Cell(true, -90.0, 90.0, -180.0, 180.0)

  function Narrow(c: Cell, bit: bool): Cell {
    if c.even then
      var mid := (c.lon0 + c.lon1) / 2.0;
      if bit then c.(even := false, lon0 := mid) else c.(even := false, lon1 := mid)
    else
      var mid := (c.lat0 + c.lat1) / 2.0;
      if bit then c.(even := true, lat0 := mid) else c.(even := true, lat1 := mid)
  }

  function CellOf(bits: seq<bool>): Cell {
    if bits == [] then START else Narrow(CellOf(bits[..|bits| - 1]), bits[|bits| - 1])
  }

  function Lat(c: Cell): real { (c.lat0 + c.lat1) / 2.0 }
  function Lon(c: Cell): real { (c.lon0 + c.lon1) / 2.0 }

  /** Which half a point falls into; the middle belongs to the lower one. */
  function NextBit(c: Cell, lat: real, lon: real): bool {
    if c.even then lon > Lon(c) else lat > Lat(c)
  }

  /** The first `n` bits of a point. */
  function BitsOf(lat: real, lon: real, n: nat): (r: seq<bool>)
    ensures |r| == n
  {
    if n == 0 then [] else
      var before := BitsOf(lat, lon, n - 1);
      before + [NextBit(CellOf(before), lat, lon)]
  }

  // ---- characters ----

  function Bit(b: bool, mask: nat): nat { if b then mask else 0 }

  function Number(bits: seq<bool>): nat
    requires |bits| <= 5
  {
    (if |bits| > 0 then Bit(bits[0], 16) else 0) + (if |bits| > 1 then Bit(bits[1], 8) else 0)
    + (if |bits| > 2 then Bit(bits[2], 4) else 0) + (if |bits| > 3 then Bit(bits[3], 2) else 0)
    + (if |bits| > 4 then Bit(bits[4], 1) else 0)
  }

  function FiveBits(n: nat): (r: seq<bool>)
    ensures |r| == 5
  {
    [n / 16 % 2 == 1, n / 8 % 2 == 1, n / 4 % 2 == 1, n / 2 % 2 == 1, n % 2 == 1]
  }

  /** The value of a character; 0xff for one outside the alphabet. */
  function Dec(c: char): nat { DecFrom(c, |ALPHABET|) }

  function DecFrom(c: char, n: nat): nat
    requires n <= |ALPHABET|
  {
    if n == 0 then 0xff else if ALPHABET[n - 1] == c then n - 1 else DecFrom(c, n - 1)
  }

  function Hash(bits: seq<bool>): string {
    if |bits| < 5 then "" else
      var n := |bits| - 5;
      NumberBound(bits[n..]);
      Hash(bits[..n]) + [ALPHABET[Number(bits[n..])]]
  }

  lemma {:induction false} NumberBound(bits: seq<bool>)
    requires |bits| <= 5
    ensures Number(bits) < 32 == |ALPHABET|
  {
  }

  function Unhash(hash: string): seq<bool> {
    if hash == "" then [] else Unhash(hash[..|hash| - 1]) + FiveBits(Dec(hash[|hash| - 1]))
  }

  predicate Letters(hash: string) { forall i | 0 <= i < |hash| :: hash[i] in ALPHABET }

  lemma {:induction false} AlphabetSnoc(n: nat)
    requires 0 < n <= |ALPHABET|
    ensures ALPHABET[..n] == ALPHABET[..n - 1] + [ALPHABET[n - 1]]
  {
  }

  lemma {:induction false} DecIsIndex(c: char, n: nat)
    requires n <= |ALPHABET|
    ensures c in ALPHABET[..n] ==> DecFrom(c, n) < n && ALPHABET[DecFrom(c, n)] == c
    ensures c !in ALPHABET[..n] ==> DecFrom(c, n) == 0xff
  {
    if n > 0 {
      DecIsIndex(c, n - 1);
      AlphabetSnoc(n);
      hide ALPHABET;
    }
  }

  lemma {:induction false} NoLetterTwice(i: nat, j: nat)
    requires i < j < 32
    ensures ALPHABET[i] != ALPHABET[j]
  {
    LettersAscend(i, j);
  }

  lemma {:induction false} LettersAscend(i: nat, j: nat)
    requires i < j < 32
    ensures ALPHABET[i] < ALPHABET[j]
  {
    assert ALPHABET[j - 1] < ALPHABET[j];
    if i < j - 1 {
      LettersAscend(i, j - 1);
    }
  }

  lemma {:induction false} DecOfLetter(i: nat)
    requires i < 32
    ensures Dec(ALPHABET[i]) == i
  {
    DecIsIndex(ALPHABET[i], 32);
    assert ALPHABET[..32] == ALPHABET;
    var k := Dec(ALPHABET[i]);
    if k < i {
      NoLetterTwice(k, i);
    } else if i < k {
      NoLetterTwice(i, k);
    }
  }

  lemma {:induction false} NumberOfFiveBits(n: nat)
    requires n < 32
    ensures Number(FiveBits(n)) == n
  {
    BitsOfFive(n);
    var b := FiveBits(n);
    assert b[0] == (n / 16 % 2 == 1) && b[1] == (n / 8 % 2 == 1) && b[2] == (n / 4 % 2 == 1) && b[3] == (n / 2 % 2 == 1) && b[4] == (n % 2 == 1);
    hide FiveBits;
  }

  lemma {:induction false} BitsOfFive(n: nat)
    requires n < 32
    ensures n == 16 * (n / 16 % 2) + 8 * (n / 8 % 2) + 4 * (n / 4 % 2) + 2 * (n / 2 % 2) + n % 2
  {
    assert n / 4 == n / 2 / 2 && n / 8 == n / 4 / 2 && n / 16 == n / 8 / 2;
  }

  lemma {:induction false} FiveBitsOfNumber(bits: seq<bool>)
    requires |bits| == 5
    ensures FiveBits(Number(bits)) == bits
  {
    var n := Number(bits);
    var (a, b, c, d, e) := (Bit(bits[0], 1), Bit(bits[1], 1), Bit(bits[2], 1), Bit(bits[3], 1), Bit(bits[4], 1));
    assert n == 2 * (2 * (2 * (2 * a + b) + c) + d) + e;
    assert n / 2 == 2 * (2 * (2 * a + b) + c) + d && n % 2 == e;
    assert n / 4 == 2 * (2 * a + b) + c && n / 8 == 2 * a + b && n / 16 == a;
  }

  /** Characters and bits determine each other. */
  lemma {:induction false} UnhashHash(bits: seq<bool>)
    requires |bits| % 5 == 0
    ensures |Hash(bits)| == |bits| / 5 && Unhash(Hash(bits)) == bits
  {
    if bits != [] {
      var n := |bits| - 5;
      UnhashHash(bits[..n]);
      NumberBound(bits[n..]);
      DecOfLetter(Number(bits[n..]));
      FiveBitsOfNumber(bits[n..]);
      hide Number, FiveBits, Dec;
      var h := Hash(bits);
      assert h[..|h| - 1] == Hash(bits[..n]);
      assert bits == bits[..n] + bits[n..];
    }
  }

  lemma {:induction false} LetterAt(c: char)
    requires c in ALPHABET
    ensures Dec(c) < 32 && ALPHABET[Dec(c)] == c && Number(FiveBits(Dec(c))) == Dec(c)
  {
    DecIsIndex(c, 32);
    assert ALPHABET[..32] == ALPHABET;
    NumberOfFiveBits(Dec(c));
  }

  lemma {:induction false} HashUnhash(hash: string)
    requires Letters(hash)
    ensures |Unhash(hash)| == 5 * |hash| && Hash(Unhash(hash)) == hash
  {
    if hash != "" {
      hide Number, FiveBits, Dec;
      var n := |hash| - 1;
      HashUnhash(hash[..n]);
      LetterAt(hash[n]);
      var bits, five := Unhash(hash[..n]), FiveBits(Dec(hash[n]));
      HashMore(bits + five);
      assert (bits + five)[..|bits + five| - 5] == bits && (bits + five)[|bits + five| - 5..] == five;
      assert hash == hash[..n] + [hash[n]];
    }
  }

  // ---- the two directions ----

  const MASKS: seq<nat> := [16, 8, 4, 2, 1]

  method EncodeGeoHash(lat: real, lon: real) returns (geoHash: string)
    ensures geoHash == Hash(BitsOf(lat, lon, 5 * PRECISION)) && |geoHash| == 12
    ensures HoldsGrid(geoHash, LinesBelow(lon, -180.0, 360.0, 30), LinesBelow(lat, -90.0, 180.0, 30))
    ensures forall i | 0 <= i < 12 :: geoHash[i] in LETTERS
  {
    hide CellOf, BitsOf, Hash, Number, NextBit, Narrow;
    var cell := START;
    var ch: nat, bit: nat := 0, 0;
    ghost var bits: seq<bool> := [];
    geoHash := "";
    NothingEncoded(lat, lon);
    while |geoHash| < PRECISION
      invariant |geoHash| <= PRECISION && 0 <= bit < 5 && (|geoHash| == PRECISION ==> bit == 0)
      invariant Encoding(lat, lon, bits, cell, geoHash, ch, bit)
      decreases PRECISION - |geoHash|, 5 - bit
    {
      hide Encoding;
      var upper := NextBit(cell, lat, lon);
      EncodeStep(lat, lon, bits, cell, geoHash, ch, bit);
      bits := bits + [upper];
      if upper {
        ch := ch + MASKS[bit];
      }
      cell := Narrow(cell, upper);
      if bit < 4 {
        bit := bit + 1;
      } else {
        geoHash := geoHash + [ALPHABET[ch]];
        ch, bit := 0, 0;
      }
    }
    assert bits[..5 * PRECISION] == bits;
    HashOfPoint(lat, lon, geoHash);
  }

  lemma {:induction false} NothingEncoded(lat: real, lon: real)
    ensures Encoding(lat, lon, [], START, "", 0, 0)
  {
  }

  /** So many bits are in, whole characters in the hash and the others in `ch`. */
  ghost predicate Encoding(lat: real, lon: real, bits: seq<bool>, cell: Cell, geoHash: string, ch: nat, bit: nat) {
    && |bits| == 5 * |geoHash| + bit && bit < 5 && bits == BitsOf(lat, lon, |bits|) && cell == CellOf(bits)
    && geoHash == Hash(bits[..5 * |geoHash|]) && ch == Number(bits[5 * |geoHash|..])
  }

  lemma {:induction false} EncodeStep(lat: real, lon: real, bits: seq<bool>, cell: Cell, geoHash: string, ch: nat, bit: nat)
    requires Encoding(lat, lon, bits, cell, geoHash, ch, bit)
    ensures
      var upper := NextBit(cell, lat, lon);
      var now := ch + Bit(upper, MASKS[bit]);
      if bit < 4 then Encoding(lat, lon, bits + [upper], Narrow(cell, upper), geoHash, now, bit + 1)
      else now < 32 && Encoding(lat, lon, bits + [upper], Narrow(cell, upper), geoHash + [ALPHABET[now]], 0, 0)
  {
    hide Hash, CellOf, Narrow, NextBit, Number;
    var upper := NextBit(cell, lat, lon);
    var more := bits + [upper];
    var n := 5 * |geoHash|;
    OneMoreBit(bits, upper);
    assert more[..n] == bits[..n] && more[n..] == bits[n..] + [upper];
    NumberMore(bits[n..], upper);
    NextOf(lat, lon, bits);
    if bit == 4 {
      HashMore(more);
      assert more[..n + 5] == more && more[n + 5..] == [];
      NoNumber();
    }
  }

  lemma {:induction false} NextOf(lat: real, lon: real, bits: seq<bool>)
    requires bits == BitsOf(lat, lon, |bits|)
    ensures bits + [NextBit(CellOf(bits), lat, lon)] == BitsOf(lat, lon, |bits| + 1)
  {
  }

  lemma {:induction false} NoNumber()
    ensures Number([]) == 0
  {
  }

  lemma {:induction false} OneMoreBit(bits: seq<bool>, bit: bool)
    ensures CellOf(bits + [bit]) == Narrow(CellOf(bits), bit)
  {
    assert (bits + [bit])[..|bits|] == bits;
  }

  lemma {:induction false} NumberMore(bits: seq<bool>, bit: bool)
    requires |bits| < 5
    ensures Number(bits + [bit]) == Number(bits) + Bit(bit, MASKS[|bits|])
  {
  }

  lemma {:induction false} HashMore(bits: seq<bool>)
    requires |bits| >= 5
    ensures Number(bits[|bits| - 5..]) < 32
    ensures Hash(bits) == Hash(bits[..|bits| - 5]) + [ALPHABET[Number(bits[|bits| - 5..])]]
  {
    NumberBound(bits[|bits| - 5..]);
  }

  method DecodeGeoHash(geoHash: string) returns (lat: real, lon: real)
    ensures lat == Lat(CellOf(Unhash(geoHash))) && lon == Lon(CellOf(Unhash(geoHash)))
    ensures exists x, y :: HoldsGrid(geoHash, x, y) && MiddleOfGrid(|geoHash|, x, y, lat, lon)
    ensures forall x, y | HoldsGrid(geoHash, x, y) :: MiddleOfGrid(|geoHash|, x, y, lat, lon)
  {
    var cell := START;
    for i := 0 to |geoHash|
      invariant cell == CellOf(Unhash(geoHash[..i]))
    {
      hide *;
      OneMoreChar(geoHash, i);
      cell := NarrowByChar(cell, Dec(geoHash[i]), Unhash(geoHash[..i]));
    }
    assert geoHash[..|geoHash|] == geoHash;
    CentresOfGrid(geoHash);
    return Lat(cell), Lon(cell);
  }

  /** The five bits of one character. */
  method NarrowByChar(start: Cell, cd: nat, ghost before: seq<bool>) returns (cell: Cell)
    requires start == CellOf(before)
    ensures cell == CellOf(before + FiveBits(cd))
  {
    hide CellOf, Narrow, FiveBits;
    cell := start;
    assert before + FiveBits(cd)[..0] == before;
    for j := 0 to 5
      invariant cell == CellOf(before + FiveBits(cd)[..j])
    {
      MaskedBit(cd, j);
      OneMoreBit(before + FiveBits(cd)[..j], FiveBits(cd)[j]);
      assert before + FiveBits(cd)[..j] + [FiveBits(cd)[j]] == before + FiveBits(cd)[..j + 1];
      cell := Narrow(cell, cd / MASKS[j] % 2 == 1);
    }
    assert FiveBits(cd)[..5] == FiveBits(cd);
  }

  lemma {:induction false} OneMoreChar(hash: string, i: nat)
    requires i < |hash|
    ensures Unhash(hash[..i + 1]) == Unhash(hash[..i]) + FiveBits(Dec(hash[i]))
  {
    assert hash[..i + 1][..i] == hash[..i];
  }

  lemma {:induction false} MaskedBit(cd: nat, j: nat)
    requires j < 5
    ensures FiveBits(cd)[j] == (cd / MASKS[j] % 2 == 1)
  {
  }

  // ---- the centre of a cell is encoded as the cell ----

  predicate Proper(c: Cell) { c.lat0 < c.lat1 && c.lon0 < c.lon1 }

  predicate Within(inner: Cell, outer: Cell) {
    outer.lat0 <= inner.lat0 && inner.lat1 <= outer.lat1 && outer.lon0 <= inner.lon0 && inner.lon1 <= outer.lon1
  }

  lemma {:induction false} CellsShrink(bits: seq<bool>, k: nat)
    requires k <= |bits|
    ensures Proper(CellOf(bits)) && Within(CellOf(bits), CellOf(bits[..k]))
  {
    if k == |bits| {
      assert bits[..k] == bits;
      if bits != [] {
        CellsShrink(bits[..k - 1], 0);
      }
    } else {
      CellsShrink(bits[..|bits| - 1], k);
      assert bits[..|bits| - 1][..k] == bits[..k];
    }
  }

  lemma {:induction false} CentreBits(bits: seq<bool>, k: nat)
    requires k <= |bits|
    ensures BitsOf(Lat(CellOf(bits)), Lon(CellOf(bits)), k) == bits[..k]
  {
    if k > 0 {
      CentreBits(bits, k - 1);
      CellsShrink(bits, k);
      assert bits[..k][..k - 1] == bits[..k - 1];
    }
  }

  /** Encoding the decoded centre of any 12-character hash returns the hash. */
  lemma {:induction false} EncodeDecoded(hash: string)
    requires Letters(hash) && |hash| == PRECISION
    ensures
      var cell := CellOf(Unhash(hash));
      Hash(BitsOf(Lat(cell), Lon(cell), 5 * PRECISION)) == hash
  {
    HashUnhash(hash);
    var bits := Unhash(hash);
    CentreBits(bits, 60);
    assert bits[..60] == bits;
  }

  // ---- a point lies in its cell ----

  function Pow2(n: nat): (r: real)
    ensures r > 0.0
  {
    if n == 0 then 1.0 else 2.0 * Pow2(n - 1)
  }

  lemma {:induction false} PointInCell(lat: real, lon: real, n: nat)
    requires -90.0 <= lat <= 90.0 && -180.0 <= lon <= 180.0
    ensures
      var c := CellOf(BitsOf(lat, lon, n));
      c.lat0 <= lat <= c.lat1 && c.lon0 <= lon <= c.lon1
  {
    if n > 0 {
      PointInCell(lat, lon, n - 1);
      OneMoreBit(BitsOf(lat, lon, n - 1), NextBit(CellOf(BitsOf(lat, lon, n - 1)), lat, lon));
    }
  }

  lemma {:induction false} HalfAsWide(c: Cell, bit: bool)
    ensures Narrow(c, bit).lon1 - Narrow(c, bit).lon0 == if c.even then (c.lon1 - c.lon0) / 2.0 else c.lon1 - c.lon0
    ensures Narrow(c, bit).lat1 - Narrow(c, bit).lat0 == if c.even then c.lat1 - c.lat0 else (c.lat1 - c.lat0) / 2.0
    ensures Narrow(c, bit).even == !c.even
  {
  }

  /** The size of a cell after longitude was halved `lons` and latitude `lats` times. */
  predicate Sized(c: Cell, lons: nat, lats: nat) {
    (c.lon1 - c.lon0) * Pow2(lons) == 360.0 && (c.lat1 - c.lat0) * Pow2(lats) == 180.0
  }

  lemma {:induction false} HalveOnce(c: Cell, bit: bool, lons: nat, lats: nat)
    requires Sized(c, lons, lats)
    ensures if c.even then Sized(Narrow(c, bit), lons + 1, lats) else Sized(Narrow(c, bit), lons, lats + 1)
  {
    HalfAsWide(c, bit);
    hide Narrow;
    assert Pow2(lons + 1) == 2.0 * Pow2(lons) && Pow2(lats + 1) == 2.0 * Pow2(lats);
    hide Pow2;
    HalfTwice(c.lon1 - c.lon0, Pow2(lons));
    HalfTwice(c.lat1 - c.lat0, Pow2(lats));
  }

  /** Longitude is halved first, and then in turn. */
  lemma {:induction false} CellSize(bits: seq<bool>)
    ensures CellOf(bits).even == (|bits| % 2 == 0) && Sized(CellOf(bits), (|bits| + 1) / 2, |bits| / 2)
  {
    if bits == [] {
      assert Pow2(0) == 1.0;
    } else {
      var n := |bits| - 1;
      var c := CellOf(bits[..n]);
      CellSize(bits[..n]);
      HalveOnce(c, bits[n], (n + 1) / 2, n / 2);
      HalfAsWide(c, bits[n]);
      hide Sized, Narrow;
      assert if n % 2 == 0 then (n + 2) / 2 == (n + 1) / 2 + 1 && (n + 1) / 2 == n / 2
             else (n + 1) / 2 == n / 2 + 1 && (n + 2) / 2 == (n + 1) / 2;
    }
  }

  lemma {:induction false} HalfTwice(w: real, p: real)
    ensures (w / 2.0) * (2.0 * p) == w * p
  {
  }

  function Abs(x: real): real { if x < 0.0 then -x else x }

  /** Decoding an encoded point gives a point within 90/2^30 of its latitude and 180/2^30 of its
      longitude. */
  lemma {:induction false} DecodeEncoded(lat: real, lon: real)
    requires -90.0 <= lat <= 90.0 && -180.0 <= lon <= 180.0
    ensures
      var cell := CellOf(Unhash(Hash(BitsOf(lat, lon, 5 * PRECISION))));
      && Abs(Lat(cell) - lat) * Pow2(30) <= 90.0
      && Abs(Lon(cell) - lon) * Pow2(30) <= 180.0
  {
    hide Hash, Unhash, CellOf, BitsOf, Pow2, Abs;
    var bits := BitsOf(lat, lon, 60);
    UnhashHash(bits);
    PointInCell(lat, lon, 60);
    CellSize(bits);
    var c := CellOf(bits);
    HalfWidth(lat, c.lat0, c.lat1, Pow2(30), 180.0);
    HalfWidth(lon, c.lon0, c.lon1, Pow2(30), 360.0);
  }

  lemma {:induction false} HalfWidth(x: real, lo: real, hi: real, p: real, size: real)
    requires lo <= x <= hi && p > 0.0 && (hi - lo) * p == size
    ensures Abs((lo + hi) / 2.0 - x) * p <= size / 2.0
  {
    var d := Abs((lo + hi) / 2.0 - x);
    assert d <= (hi - lo) / 2.0;
    TimesMonotone(d, (hi - lo) / 2.0, p);
    assert (hi - lo) / 2.0 * p == size / 2.0;
  }

  lemma {:induction false} TimesMonotone(a: real, b: real, p: real)
    requires a <= b && p > 0.0
    ensures a * p <= b * p
  {
  }

  // ---- the grid ----

  function TwoTo(n: nat): (r: nat)
    ensures r >= 1
  {
    if n == 0 then 1 else 2 * TwoTo(n - 1)
  }

  ghost predicate MultipleBelow(k: nat, low: real, unit: real, x: real) { low + k as real * unit < x }

  /** How many of the lines that cut a range of the given size into 2^n equal parts lie strictly below `x`. */
  ghost function LinesBelow(x: real, low: real, size: real, n: nat): nat {
    var unit := size / TwoTo(n) as real;
    |set k: nat | 1 <= k < TwoTo(n) && MultipleBelow(k, low, unit, x)|
  }

  /** Of `t` bits in all the one at place `k`: those of `x` in the even places, those of `y` in the
      odd ones, most significant first. */
  function GridBit(x: nat, y: nat, t: nat, k: nat): nat
    requires k < t
  {
    if k % 2 == 0 then x / TwoTo((t + 1) / 2 - 1 - k / 2) % 2 else y / TwoTo(t / 2 - 1 - k / 2) % 2
  }

  /** A character stands for its place in the alphabet, any other character for the last place. */
  predicate StandsFor(c: char, n: nat) {
    n < 32 && if c in LETTERS then c == LETTERS[n] else n == 31
  }

  predicate GridChar(c: char, x: nat, y: nat, t: nat, i: nat)
    requires 5 * i + 4 < t
  {
    StandsFor(c, 16 * GridBit(x, y, t, 5 * i) + 8 * GridBit(x, y, t, 5 * i + 1) + 4 * GridBit(x, y, t, 5 * i + 2)
                 + 2 * GridBit(x, y, t, 5 * i + 3) + GridBit(x, y, t, 5 * i + 4))
  }

  /** The characters hold, five bits each, column `x` and row `y` of the grid. */
  predicate HoldsGrid(hash: string, x: nat, y: nat) {
    && x < TwoTo((5 * |hash| + 1) / 2) && y < TwoTo(5 * |hash| / 2)
    && forall i | 0 <= i < |hash| :: GridChar(hash[i], x, y, 5 * |hash|, i)
  }

  predicate GridBits(bits: seq<bool>, x: nat, y: nat, t: nat) {
    |bits| <= t && forall k | 0 <= k < |bits| :: bits[k] == (GridBit(x, y, t, k) == 1)
  }

  // ---- one coordinate ----

  /** Bounds that enclose the grid's part `x` once the last bits, of value less than `p`, are cut off. */
  ghost predicate Spans(lo: real, hi: real, low: real, unit: real, x: nat, p: nat) {
    p > 0 && lo == low + (x - x % p) as real * unit && hi == low + (x - x % p + p) as real * unit
  }

  lemma {:induction false} CutOneMore(x: nat, h: nat)
    requires h > 0
    ensures x / h % 2 == 1 <==> x % (2 * h) >= h
    ensures x - x % h == x - x % (2 * h) + (if x % (2 * h) >= h then h else 0)
  {
    var q, r := x / (2 * h), x % (2 * h);
    assert x == q * (2 * h) + r;
    TwiceAsMany(q, h);
    if r >= h {
      DivUnique(x, h, 2 * q + 1, r - h);
    } else {
      DivUnique(x, h, 2 * q, r);
    }
  }

  lemma {:induction false} TwiceAsMany(q: nat, h: nat)
    ensures q * (2 * h) == 2 * q * h && (2 * q + 1) * h == 2 * q * h + h
  {
  }

  lemma {:induction false} DivUnique(x: nat, h: nat, q: nat, r: nat)
    requires h > 0 && x == q * h + r && r < h
    ensures x / h == q && x % h == r
  {
    var d := x / h - q;
    assert d * h == r - x % h;
    assert d >= 1 ==> d * h >= h;
    assert d <= -1 ==> d * h <= -1 * h;
  }

  predicate Odd(x: nat, h: nat)
    requires h > 0
  {
    x / h % 2 == 1
  }

  /** The line in the middle between those bounds. */
  function Middle(x: nat, h: nat): (r: nat)
    requires h > 0
  {
    Remainder(x, 2 * h);
    x - x % (2 * h) + h
  }

  lemma {:induction false} HalveSpan(lo: real, hi: real, low: real, unit: real, x: nat, h: nat)
    requires h > 0 && Spans(lo, hi, low, unit, x, 2 * h)
    ensures (lo + hi) / 2.0 == low + Middle(x, h) as real * unit
    ensures if Odd(x, h) then Spans((lo + hi) / 2.0, hi, low, unit, x, h) else Spans(lo, (lo + hi) / 2.0, low, unit, x, h)
  {
    CutOneMore(x, h);
    MiddleOf(x - x % (2 * h), h, low, unit);
  }

  lemma {:induction false} MiddleOf(a: int, h: nat, low: real, unit: real)
    ensures (low + a as real * unit + (low + (a + 2 * h) as real * unit)) / 2.0 == low + (a + h) as real * unit
  {
    var (x, y) := (a as real, h as real);
    assert (a + 2 * h) as real == x + 2.0 * y && (a + h) as real == x + y;
  }

  lemma {:induction false} WholeRange(low: real, size: real, x: nat, n: nat)
    requires x < TwoTo(n)
    ensures Spans(low, low + size, low, size / TwoTo(n) as real, x, TwoTo(n))
  {
    var p := TwoTo(n);
    DivUnique(x, p, 0, x);
    Undivided(size, p as real);
  }

  lemma {:induction false} Undivided(size: real, p: real)
    requires p > 0.0
    ensures p * (size / p) == size
  {
  }

  // ---- lines below a coordinate ----

  lemma {:induction false} BelowIsPrefix(x: real, low: real, unit: real, n: nat)
    requires unit > 0.0 && n >= 1
    ensures
      var below := set k: nat | 1 <= k < n && MultipleBelow(k, low, unit, x);
      |below| < n && forall k: nat | 1 <= k < n :: MultipleBelow(k, low, unit, x) <==> k <= |below|
  {
    var below := set k: nat | 1 <= k < n && MultipleBelow(k, low, unit, x);
    if n > 1 {
      BelowIsPrefix(x, low, unit, n - 1);
      var fewer := set k: nat | 1 <= k < n - 1 && MultipleBelow(k, low, unit, x);
      if MultipleBelow(n - 1, low, unit, x) {
        if n > 2 {
          LowerIsBelow(n - 2, n - 1, low, unit, x);
        }
        assert below == fewer + {n - 1};
      } else {
        assert below == fewer;
      }
    } else {
      assert below == {};
    }
  }

  lemma {:induction false} LowerIsBelow(i: nat, j: nat, low: real, unit: real, x: real)
    requires i < j && unit > 0.0 && MultipleBelow(j, low, unit, x)
    ensures MultipleBelow(i, low, unit, x)
  {
    TimesMonotone(i as real, j as real, unit);
  }

  /** The bounds that a bisection has reached along both axes. */
  ghost predicate OnGrid(c: Cell, n: nat, x: nat, y: nat, t: nat)
    requires n <= t
  {
    var a, b := (t + 1) / 2, t / 2;
    && c.even == (n % 2 == 0)
    && Spans(c.lon0, c.lon1, -180.0, 360.0 / TwoTo(a) as real, x, TwoTo(a - (n + 1) / 2))
    && Spans(c.lat0, c.lat1, -90.0, 180.0 / TwoTo(b) as real, y, TwoTo(b - n / 2))
  }

  lemma {:induction false} StartOnGrid(x: nat, y: nat, t: nat)
    requires x < TwoTo((t + 1) / 2) && y < TwoTo(t / 2)
    ensures OnGrid(START, 0, x, y, t)
  {
    WholeRange(-180.0, 360.0, x, (t + 1) / 2);
    WholeRange(-90.0, 180.0, y, t / 2);
  }

  lemma {:induction false} NarrowLon(c: Cell, n: nat, x: nat, y: nat, t: nat)
    requires n < t && OnGrid(c, n, x, y, t) && c.even
    ensures OnGrid(Narrow(c, GridBit(x, y, t, n) == 1), n + 1, x, y, t)
  {
    hide Spans, Middle;
    assert (n + 2) / 2 == n / 2 + 1 && (n + 1) / 2 == n / 2;
    HalveSpan(c.lon0, c.lon1, -180.0, 360.0 / TwoTo((t + 1) / 2) as real, x, TwoTo((t + 1) / 2 - 1 - n / 2));
  }

  lemma {:induction false} NarrowLat(c: Cell, n: nat, x: nat, y: nat, t: nat)
    requires n < t && OnGrid(c, n, x, y, t) && !c.even
    ensures OnGrid(Narrow(c, GridBit(x, y, t, n) == 1), n + 1, x, y, t)
  {
    hide Spans, Middle;
    assert (n + 2) / 2 == (n + 1) / 2 && (n + 1) / 2 == n / 2 + 1;
    HalveSpan(c.lat0, c.lat1, -90.0, 180.0 / TwoTo(t / 2) as real, y, TwoTo(t / 2 - 1 - n / 2));
  }

  /** One more bit halves the bounds towards the grid's cell. */
  lemma {:induction false} NarrowOnGrid(c: Cell, n: nat, x: nat, y: nat, t: nat)
    requires n < t && OnGrid(c, n, x, y, t)
    ensures OnGrid(Narrow(c, GridBit(x, y, t, n) == 1), n + 1, x, y, t)
  {
    hide *;
    if c.even {
      NarrowLon(c, n, x, y, t);
    } else {
      NarrowLat(c, n, x, y, t);
    }
  }

  /** Bits that agree with the grid lead to its cell. */
  lemma {:induction false} GridBitsLead(bits: seq<bool>, x: nat, y: nat, t: nat)
    requires x < TwoTo((t + 1) / 2) && y < TwoTo(t / 2) && GridBits(bits, x, y, t)
    ensures OnGrid(CellOf(bits), |bits|, x, y, t)
  {
    hide OnGrid, Narrow, GridBit;
    if bits == [] {
      StartOnGrid(x, y, t);
    } else {
      var n := |bits| - 1;
      GridBitsLead(bits[..n], x, y, t);
      NarrowOnGrid(CellOf(bits[..n]), n, x, y, t);
      assert bits[n] == (GridBit(x, y, t, n) == 1);
    }
  }

  lemma {:induction false} LinesBelowAre(x: real, low: real, size: real, n: nat)
    requires size > 0.0
    ensures
      var unit := size / TwoTo(n) as real;
      && LinesBelow(x, low, size, n) < TwoTo(n)
      && forall k: nat | 1 <= k < TwoTo(n) :: MultipleBelow(k, low, unit, x) <==> k <= LinesBelow(x, low, size, n)
  {
    hide MultipleBelow;
    Positive(size, TwoTo(n) as real);
    BelowIsPrefix(x, low, size / TwoTo(n) as real, TwoTo(n));
  }

  lemma {:induction false} Positive(size: real, p: real)
    requires size > 0.0 && p > 0.0
    ensures size / p > 0.0
  {
  }

  lemma {:induction false} TwoToSum(m: nat, n: nat)
    ensures TwoTo(m + n) == TwoTo(m) * TwoTo(n)
  {
    if m > 0 {
      TwoToSum(m - 1, n);
      assert TwoTo(m) == 2 * TwoTo(m - 1) && TwoTo(m + n) == 2 * TwoTo(m + n - 1);
      hide TwoTo;
      Doubled(TwoTo(m - 1), TwoTo(n));
    }
  }

  lemma {:induction false} Doubled(p: nat, q: nat)
    ensures 2 * p * q == 2 * (p * q)
  {
  }

  lemma {:induction false} Below(x: nat, q: nat, c: nat)
    requires q > 0 && x < q * c
    ensures x - x % q + q <= q * c
  {
    var d := x / q;
    assert x == q * d + x % q;
    assert d < c by {
      assert d >= c ==> q * d >= q * c;
    }
    assert q * (d + 1) == q * d + q;
    assert q * (d + 1) <= q * c;
  }

  /** Where the middle is, there is a line. */
  lemma {:induction false} MiddleIsLine(x: nat, m: nat, n: nat)
    requires m < n && x < TwoTo(n)
    ensures 1 <= Middle(x, TwoTo(m)) < TwoTo(n)
  {
    TwoToSum(m + 1, n - 1 - m);
    var q, c := TwoTo(m + 1), TwoTo(n - 1 - m);
    assert q == 2 * TwoTo(m);
    Below(x, q, c);
    Remainder(x, q);
    hide TwoTo;
  }

  lemma {:induction false} Remainder(x: nat, q: nat)
    requires q > 0
    ensures 0 <= x % q <= x
  {
    assert x == q * (x / q) + x % q;
    assert q * (x / q) >= 0;
  }

  lemma {:induction false} PassedLine(x: nat, h: nat)
    requires h > 0
    ensures Middle(x, h) <= x <==> Odd(x, h)
  {
    CutOneMore(x, h);
  }

  lemma {:induction false} LineAt(point: real, mid: real, low: real, unit: real, k: nat)
    requires mid == low + k as real * unit
    ensures MultipleBelow(k, low, unit, point) <==> point > mid
  {
  }

  /** When `x` lines lie below a point, it is beyond the middle exactly when the middle is one of them. */
  lemma {:induction false} BeyondMiddle(point: real, lo: real, hi: real, low: real, unit: real, x: nat, h: nat, lines: nat)
    requires h > 0 && Spans(lo, hi, low, unit, x, 2 * h) && 1 <= Middle(x, h) < lines
    requires forall k: nat | 1 <= k < lines :: MultipleBelow(k, low, unit, point) <==> k <= x
    ensures point > (lo + hi) / 2.0 <==> Odd(x, h)
  {
    HalveSpan(lo, hi, low, unit, x, h);
    PassedLine(x, h);
    hide Spans, Middle, Odd, MultipleBelow;
    LineAt(point, (lo + hi) / 2.0, low, unit, Middle(x, h));
  }

  lemma {:induction false} NextLine(point: real, lo: real, hi: real, low: real, size: real, n: nat, m: nat)
    requires size > 0.0 && m < n
    requires Spans(lo, hi, low, size / TwoTo(n) as real, LinesBelow(point, low, size, n), TwoTo(m + 1))
    ensures point > (lo + hi) / 2.0 <==> Odd(LinesBelow(point, low, size, n), TwoTo(m))
  {
    assert TwoTo(m + 1) == 2 * TwoTo(m);
    hide *;
    LinesBelowAre(point, low, size, n);
    var x := LinesBelow(point, low, size, n);
    MiddleIsLine(x, m, n);
    BeyondMiddle(point, lo, hi, low, size / TwoTo(n) as real, x, TwoTo(m), TwoTo(n));
  }

  lemma {:induction false} OneMoreGridBit(bits: seq<bool>, bit: bool, x: nat, y: nat, t: nat)
    requires |bits| < t && GridBits(bits, x, y, t) && bit == (GridBit(x, y, t, |bits|) == 1)
    ensures GridBits(bits + [bit], x, y, t)
  {
    hide GridBit;
  }

  /** The bits of a point are those of the lines below its longitude and below its latitude. */
  lemma {:induction false} BitsOnGrid(lat: real, lon: real, n: nat, t: nat)
    requires n <= t
    ensures GridBits(BitsOf(lat, lon, n), LinesBelow(lon, -180.0, 360.0, (t + 1) / 2), LinesBelow(lat, -90.0, 180.0, t / 2), t)
  {
    if n > 0 {
      BitsOnGrid(lat, lon, n - 1, t);
      LinesBelowAre(lon, -180.0, 360.0, (t + 1) / 2);
      LinesBelowAre(lat, -90.0, 180.0, t / 2);
      var (x, y) := (LinesBelow(lon, -180.0, 360.0, (t + 1) / 2), LinesBelow(lat, -90.0, 180.0, t / 2));
      hide GridBits, GridBit, LinesBelow, CellOf, NextBit, OnGrid, TwoTo, MultipleBelow;
      var before := BitsOf(lat, lon, n - 1);
      GridBitsLead(before, x, y, t);
      NextOnGrid(CellOf(before), lat, lon, n - 1, t);
      OneMoreGridBit(before, NextBit(CellOf(before), lat, lon), x, y, t);
    } else {
      hide GridBit, LinesBelow;
    }
  }

  lemma {:induction false} NextOnGrid(c: Cell, lat: real, lon: real, n: nat, t: nat)
    requires n < t
    requires OnGrid(c, n, LinesBelow(lon, -180.0, 360.0, (t + 1) / 2), LinesBelow(lat, -90.0, 180.0, t / 2), t)
    ensures NextBit(c, lat, lon)
         == (GridBit(LinesBelow(lon, -180.0, 360.0, (t + 1) / 2), LinesBelow(lat, -90.0, 180.0, t / 2), t, n) == 1)
  {
    hide Spans, LinesBelow, Middle;
    if c.even {
      NextLine(lon, c.lon0, c.lon1, -180.0, 360.0, (t + 1) / 2, (t + 1) / 2 - 1 - n / 2);
    } else {
      NextLine(lat, c.lat0, c.lat1, -90.0, 180.0, t / 2, t / 2 - 1 - n / 2);
    }
  }

  // ---- the characters of a grid cell ----

  const LETTERS := "0123456789bcdefghjkmnpqrstuvwxyz"

  lemma {:induction false} HashLetters(bits: seq<bool>)
    ensures forall i | 0 <= i < |Hash(bits)| :: Hash(bits)[i] in LETTERS
  {
    if |bits| >= 5 {
      HashLetters(bits[..|bits| - 5]);
      HashMore(bits);
      assert ALPHABET == LETTERS;
      hide Number, ALPHABET;
    }
  }

  /** A character stands for five bits exactly when those are the bits of its value. */
  lemma {:induction false} StandsForBits(c: char, n: nat)
    requires n < 32
    ensures StandsFor(c, n) <==> FiveBits(n) == FiveBits(Dec(c))
  {
    assert ALPHABET == LETTERS && ALPHABET[..32] == ALPHABET;
    DecIsIndex(c, 32);
    NumberOfFiveBits(n);
    if c in LETTERS {
      NumberOfFiveBits(Dec(c));
      DecOfLetter(n);
      hide ALPHABET, FiveBits, Number;
    } else {
      NumberOfFiveBits(31);
      assert FiveBits(0xff) == FiveBits(31);
      hide FiveBits, Number;
    }
  }

  lemma {:induction false} FiveOnes(a: nat, b: nat, c: nat, d: nat, e: nat)
    requires a < 2 && b < 2 && c < 2 && d < 2 && e < 2
    ensures
      var n := 16 * a + 8 * b + 4 * c + 2 * d + e;
      n < 32 && FiveBits(n) == [a == 1, b == 1, c == 1, d == 1, e == 1]
  {
    var bits := [a == 1, b == 1, c == 1, d == 1, e == 1];
    FiveBitsOfNumber(bits);
  }

  lemma {:induction false} UnhashAt(hash: string, k: nat)
    requires k < 5 * |hash|
    ensures |Unhash(hash)| == 5 * |hash| && Unhash(hash)[k] == FiveBits(Dec(hash[k / 5]))[k % 5]
    decreases |hash|
  {
    hide FiveBits, Dec;
    var n := |hash| - 1;
    assert Unhash(hash) == Unhash(hash[..n]) + FiveBits(Dec(hash[n]));
    if n > 0 {
      UnhashAt(hash[..n], if k < 5 * n then k else 0);
    }
  }

  lemma {:induction false} GridBitBound(x: nat, y: nat, t: nat, k: nat)
    requires k < t
    ensures GridBit(x, y, t, k) < 2
  {
  }

  /** The five bits of a character are its five bits of the grid. */
  predicate GridFive(c: char, x: nat, y: nat, t: nat, i: nat)
    requires 5 * i + 4 < t
  {
    FiveBits(Dec(c)) == [GridBit(x, y, t, 5 * i) == 1, GridBit(x, y, t, 5 * i + 1) == 1, GridBit(x, y, t, 5 * i + 2) == 1,
                         GridBit(x, y, t, 5 * i + 3) == 1, GridBit(x, y, t, 5 * i + 4) == 1]
  }

  lemma {:induction false} GridFiveBit(c: char, x: nat, y: nat, t: nat, i: nat, j: nat)
    requires 5 * i + 4 < t && j < 5 && GridFive(c, x, y, t, i)
    ensures FiveBits(Dec(c))[j] == (GridBit(x, y, t, 5 * i + j) == 1)
  {
    hide GridBit, FiveBits, Dec;
    assert j == 0 || j == 1 || j == 2 || j == 3 || j == 4;
  }

  lemma {:induction false} GridCharIff(c: char, x: nat, y: nat, t: nat, i: nat)
    requires 5 * i + 4 < t
    ensures GridChar(c, x, y, t, i) <==> GridFive(c, x, y, t, i)
  {
    GridBitBound(x, y, t, 5 * i);
    GridBitBound(x, y, t, 5 * i + 1);
    GridBitBound(x, y, t, 5 * i + 2);
    GridBitBound(x, y, t, 5 * i + 3);
    GridBitBound(x, y, t, 5 * i + 4);
    hide GridBit, FiveBits, Dec, StandsFor;
    var (g, h) := (GridBit(x, y, t, 5 * i), GridBit(x, y, t, 5 * i + 1));
    var (k, l, m) := (GridBit(x, y, t, 5 * i + 2), GridBit(x, y, t, 5 * i + 3), GridBit(x, y, t, 5 * i + 4));
    FiveOnes(g, h, k, l, m);
    StandsForBits(c, 16 * g + 8 * h + 4 * k + 2 * l + m);
  }

  /** The characters hold a part of the grid exactly when their bits do. */
  lemma {:induction false} HoldsGridIff(hash: string, x: nat, y: nat)
    requires x < TwoTo((5 * |hash| + 1) / 2) && y < TwoTo(5 * |hash| / 2)
    ensures |Unhash(hash)| == 5 * |hash|
    ensures HoldsGrid(hash, x, y) <==> GridBits(Unhash(hash), x, y, 5 * |hash|)
  {
    hide GridChar, GridFive, GridBit, FiveBits, Dec, TwoTo;
    var t := 5 * |hash|;
    if hash != "" {
      UnhashAt(hash, 0);
    }
    if HoldsGrid(hash, x, y) {
      forall k | 0 <= k < t
        ensures Unhash(hash)[k] == (GridBit(x, y, t, k) == 1)
      {
        UnhashAt(hash, k);
        GridCharIff(hash[k / 5], x, y, t, k / 5);
        GridFiveBit(hash[k / 5], x, y, t, k / 5, k % 5);
        assert 5 * (k / 5) + k % 5 == k;
      }
    }
    if GridBits(Unhash(hash), x, y, t) {
      forall i | 0 <= i < |hash|
        ensures GridChar(hash[i], x, y, t, i)
      {
        GridFiveAt(hash, x, y, i);
        GridCharIff(hash[i], x, y, t, i);
      }
    }
  }

  lemma {:induction false} GridFiveAt(hash: string, x: nat, y: nat, i: nat)
    requires i < |hash| && GridBits(Unhash(hash), x, y, 5 * |hash|)
    ensures GridFive(hash[i], x, y, 5 * |hash|, i)
  {
    hide GridBit, FiveBits, Dec, Unhash;
    var five := FiveBits(Dec(hash[i]));
    forall j | 0 <= j < 5
      ensures five[j] == (GridBit(x, y, 5 * |hash|, 5 * i + j) == 1)
    {
      UnhashAt(hash, 5 * i + j);
      assert (5 * i + j) / 5 == i && (5 * i + j) % 5 == j;
    }
    assert five[0] == (GridBit(x, y, 5 * |hash|, 5 * i + 0) == 1);
  }

  /** The hash of a point holds the lines below its longitude and below its latitude. */
  lemma {:induction false} HashOfPoint(lat: real, lon: real, hash: string)
    requires hash == Hash(BitsOf(lat, lon, 5 * |hash|))
    ensures HoldsGrid(hash, LinesBelow(lon, -180.0, 360.0, (5 * |hash| + 1) / 2), LinesBelow(lat, -90.0, 180.0, 5 * |hash| / 2))
    ensures forall i | 0 <= i < |hash| :: hash[i] in LETTERS
  {
    hide *;
    var t := 5 * |hash|;
    var bits := BitsOf(lat, lon, t);
    HashLetters(bits);
    UnhashHash(bits);
    BitsOnGrid(lat, lon, t, t);
    LinesBelowAre(lon, -180.0, 360.0, (t + 1) / 2);
    LinesBelowAre(lat, -90.0, 180.0, t / 2);
    HoldsGridIff(hash, LinesBelow(lon, -180.0, 360.0, (t + 1) / 2), LinesBelow(lat, -90.0, 180.0, t / 2));
  }

  /** Every string holds some part of the grid. */
  lemma {:induction false} HoldsSome(hash: string) returns (x: nat, y: nat)
    ensures HoldsGrid(hash, x, y)
  {
    hide *;
    var t, bits := 5 * |hash|, Unhash(hash);
    UnhashLength(hash);
    var lat, lon := Lat(CellOf(bits)), Lon(CellOf(bits));
    CentreBits(bits, t);
    assert bits[..t] == bits;
    x, y := LinesBelow(lon, -180.0, 360.0, (t + 1) / 2), LinesBelow(lat, -90.0, 180.0, t / 2);
    BitsOnGrid(lat, lon, t, t);
    LinesBelowAre(lon, -180.0, 360.0, (t + 1) / 2);
    LinesBelowAre(lat, -90.0, 180.0, t / 2);
    HoldsGridIff(hash, x, y);
  }

  lemma {:induction false} UnhashLength(hash: string)
    ensures |Unhash(hash)| == 5 * |hash|
  {
    if hash != "" {
      UnhashAt(hash, 0);
    }
  }

  /** The point in the middle of column `x` and row `y` of the grid of hashes of so many characters. */
  ghost predicate MiddleOfGrid(length: nat, x: nat, y: nat, lat: real, lon: real) {
    && lon == -180.0 + (x as real + 0.5) * (360.0 / TwoTo((5 * length + 1) / 2) as real)
    && lat == -90.0 + (y as real + 0.5) * (180.0 / TwoTo(5 * length / 2) as real)
  }

  /** The point that a hash is decoded to: the middle of its part of the grid. */
  lemma {:induction false} CentresOfGrid(hash: string)
    ensures
      var c := CellOf(Unhash(hash));
      && (exists x, y :: HoldsGrid(hash, x, y) && MiddleOfGrid(|hash|, x, y, Lat(c), Lon(c)))
      && (forall x, y | HoldsGrid(hash, x, y) :: MiddleOfGrid(|hash|, x, y, Lat(c), Lon(c)))
  {
    hide *;
    forall x, y | HoldsGrid(hash, x, y)
      ensures MiddleOfGrid(|hash|, x, y, Lat(CellOf(Unhash(hash))), Lon(CellOf(Unhash(hash))))
    {
      CentreOfGrid(hash, x, y);
    }
    var x, y := HoldsSome(hash);
  }

  lemma {:induction false} CentreOfGrid(hash: string, x: nat, y: nat)
    requires HoldsGrid(hash, x, y)
    ensures MiddleOfGrid(|hash|, x, y, Lat(CellOf(Unhash(hash))), Lon(CellOf(Unhash(hash))))
  {
    hide *;
    var t, c := 5 * |hash|, CellOf(Unhash(hash));
    InRange(hash, x, y);
    HoldsGridIff(hash, x, y);
    GridBitsLead(Unhash(hash), x, y, t);
    CentreOfCell(c, x, y, |hash|);
  }

  lemma {:induction false} InRange(hash: string, x: nat, y: nat)
    requires HoldsGrid(hash, x, y)
    ensures x < TwoTo((5 * |hash| + 1) / 2) && y < TwoTo(5 * |hash| / 2)
  {
  }

  lemma {:induction false} CentreOfCell(c: Cell, x: nat, y: nat, length: nat)
    requires OnGrid(c, 5 * length, x, y, 5 * length)
    ensures MiddleOfGrid(length, x, y, Lat(c), Lon(c))
  {
    var t := 5 * length;
    assert TwoTo(0) == 1;
    hide TwoTo, Spans;
    CentreOfSpan(c.lon0, c.lon1, -180.0, 360.0 / TwoTo((t + 1) / 2) as real, x);
    CentreOfSpan(c.lat0, c.lat1, -90.0, 180.0 / TwoTo(t / 2) as real, y);
  }

  lemma {:induction false} CentreOfSpan(lo: real, hi: real, low: real, unit: real, x: nat)
    requires Spans(lo, hi, low, unit, x, 1)
    ensures (lo + hi) / 2.0 == low + (x as real + 0.5) * unit
  {
    assert (x + 1) as real == x as real + 1.0;
  }
}
