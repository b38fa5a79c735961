/** The layout of the two buffers and the conversion between them, as pure
    functions. The bitmap `bs` is MONO_VLSB: byte r*W + c holds the eight
    pixels of column c in band r (rows 8r .. 8r+7). The packed buffer `bt`
    is walked column pair by column pair; within pair p every band r gives
    two bytes, the low-nibble byte at p*2B + 2r and the high-nibble byte
    right after it, where B is the number of bands. */
module Packing {
  import opened Bits

  /** The geometry the converter's loops need: whole column pairs and whole
      groups of three bands. */
  predicate Shape(width: nat, bands: nat)
  {
    width % 2 == 0 && bands > 0 && bands % 3 == 0
  }

  // ---- arithmetic helpers ----

  lemma MulAtLeast(e: int, d: int)
    requires e >= 1 && d > 0
    ensures e * d >= d
  {
    assert e * d == (e - 1) * d + d;
    assert (e - 1) * d >= 0;
  }

  lemma MulMonotone(a: int, b: int, d: int)
    requires a <= b && d >= 0
    ensures a * d <= b * d
  {
    assert b * d - a * d == (b - a) * d;
  }

  lemma DivModUnique(x: int, d: int, a: int, b: int)
    requires d > 0 && 0 <= b < d && x == a * d + b
    ensures x / d == a && x % d == b
  {
    var q, m := x / d, x % d;
    assert x == q * d + m;
    assert (a - q) * d == m - b;
    if a - q >= 1 { MulAtLeast(a - q, d); }
    else if q - a >= 1 { MulAtLeast(q - a, d); }
  }

  lemma DivNonnegative(x: int, d: int)
    requires x >= 0 && d > 0
    ensures x / d >= 0
  {
  }

  lemma DivBelow(x: nat, d: nat, n: nat)
    requires d > 0 && x < d * n
    ensures 0 <= x / d < n
  {
    if x / d >= n {
      MulAtLeast(x / d - n + 1, d);
    }
  }

  /** A `range(0, n, s)` loop whose bound is a multiple of its step ends
      exactly at the bound. */
  lemma NextMultiple(j: nat, n: nat, s: nat)
    requires s > 0 && j % s == 0 && n % s == 0 && j < n
    ensures j + s <= n
  {
    DivModUnique(j, s, j / s, 0);
    DivModUnique(n, s, n / s, 0);
    if j / s >= n / s { MulMonotone(n / s, j / s, s); }
    MulMonotone(j / s + 1, n / s, s);
  }

  // ---- output positions ----

  /** Where column pair p starts in the packed buffer: each pair before it
      took two bytes per band. */
  function TileStart(bands: nat, p: nat): nat
  {
    if p == 0 then 0 else TileStart(bands, p - 1) + 2 * bands
  }

  lemma {:induction false} TileStartIs(bands: nat, p: nat)
    ensures TileStart(bands, p) == p * (2 * bands)
  {
    if p > 0 {
      TileStartIs(bands, p - 1);
      assert p * (2 * bands) == (p - 1) * (2 * bands) + 2 * bands;
    }
  }

  /** The index the converter's counter k has when it writes half h of band
      r of column pair p. */
  function Position(bands: nat, p: nat, r: nat, h: nat): nat
  {
    TileStart(bands, p) + 2 * r + h
  }

  function TileOf(bands: nat, k: nat): nat
    requires bands > 0
  {
    DivNonnegative(k, 2 * bands);
    k / (2 * bands)
  }

  function BandOf(bands: nat, k: nat): nat
    requires bands > 0
  {
    (k % (2 * bands)) / 2
  }

  function HalfOf(bands: nat, k: nat): nat
    requires bands > 0
  {
    (k % (2 * bands)) % 2
  }

  /** Once all column pairs are done the counter is at the end of the buffer. */
  lemma LastPosition(width: nat, bands: nat)
    requires width % 2 == 0
    ensures Position(bands, width / 2, 0, 0) == width * bands
  {
    TileStartIs(bands, width / 2);
    assert (width / 2) * (2 * bands) == ((width / 2) * 2) * bands;
  }

  /** Distinct (pair, band, half) triples get distinct positions: no index of
      the packed buffer is written twice. */
  lemma {:induction false} PositionDecompose(bands: nat, p: nat, r: nat, h: nat)
    requires bands > 0 && r < bands && h < 2
    ensures TileOf(bands, Position(bands, p, r, h)) == p
    ensures BandOf(bands, Position(bands, p, r, h)) == r
    ensures HalfOf(bands, Position(bands, p, r, h)) == h
  {
    TileStartIs(bands, p);
    DivModUnique(Position(bands, p, r, h), 2 * bands, p, 2 * r + h);
    DivModUnique(2 * r + h, 2, r, h);
  }

  /** Every index is some triple's position: no index is skipped. */
  lemma {:induction false} DecomposePosition(width: nat, bands: nat, k: nat)
    requires Shape(width, bands) && k < width * bands
    ensures TileOf(bands, k) < width / 2 && BandOf(bands, k) < bands && HalfOf(bands, k) < 2
    ensures Position(bands, TileOf(bands, k), BandOf(bands, k), HalfOf(bands, k)) == k
  {
    assert width * bands == (width / 2) * (2 * bands);
    DivBelow(k, 2 * bands, width / 2);
    TileStartIs(bands, TileOf(bands, k));
  }

  /** The last position of the last column pair is the last index of a
      buffer of width * bands bytes. */
  lemma {:induction false} PositionInRange(width: nat, bands: nat, p: nat, r: nat, h: nat)
    requires Shape(width, bands) && p < width / 2 && r < bands && h < 2
    ensures Position(bands, p, r, h) < width * bands
  {
    TileStartIs(bands, p);
    MulMonotone(p, width / 2 - 1, 2 * bands);
    assert (width / 2 - 1) * (2 * bands) + 2 * bands == width * bands;
  }

  /** Every source read of the converter, (j+y)*W + i + 1 for band j+y and
      left column i, stays inside the bitmap. */
  lemma {:induction false} SourceInRange(width: nat, bands: nat, r: nat, c: nat)
    requires r < bands && c < width
    ensures 0 <= r * width && r * width + c < width * bands
  {
    MulMonotone(r, bands - 1, width);
    assert (bands - 1) * width + width == width * bands;
  }

  // ---- the conversion ----

  /** The byte the converter writes for half h of band r of column pair p
      (0 for a pair outside the bitmap, which no caller asks for). */
  function Cell(bs: seq<bv8>, width: nat, p: nat, r: nat, h: nat): bv8
  {
    if r * width + 2 * p + 1 < |bs| then
      var b1 := bs[r * width + 2 * p];
      var b2 := bs[r * width + 2 * p + 1];
      if h == 0 then MixLow(b1, b2) else MixHigh(b1, b2)
    else 0
  }

  function PackedAt(bs: seq<bv8>, width: nat, bands: nat, k: nat): bv8
    requires Shape(width, bands) && |bs| == width * bands && k < width * bands
  {
    DecomposePosition(width, bands, k);
    Cell(bs, width, TileOf(bands, k), BandOf(bands, k), HalfOf(bands, k))
  }

  /** The packed buffer the converter produces from bitmap `bs`. */
  function Packed(bs: seq<bv8>, width: nat, bands: nat): (t: seq<bv8>)
    requires Shape(width, bands) && |bs| == width * bands
    ensures |t| == |bs|
  {
    seq(width * bands, k requires 0 <= k < width * bands => PackedAt(bs, width, bands, k))
  }

  /** Half h of band r of column pair p is found at Position(p, r, h). */
  lemma PackedCell(bs: seq<bv8>, width: nat, bands: nat, p: nat, r: nat, h: nat)
    requires Shape(width, bands) && |bs| == width * bands
    requires p < width / 2 && r < bands && h < 2
    ensures Position(bands, p, r, h) < |bs| && r * width + 2 * p + 1 < |bs|
    ensures Packed(bs, width, bands)[Position(bands, p, r, h)] == Cell(bs, width, p, r, h)
  {
    PositionInRange(width, bands, p, r, h);
    SourceInRange(width, bands, r, 2 * p + 1);
    PositionDecompose(bands, p, r, h);
  }

  /** The two bytes the converter writes for band r of the column pair that
      starts at column i, and where it reads them from. */
  lemma BandBytes(bs: seq<bv8>, width: nat, bands: nat, i: nat, r: nat)
    requires Shape(width, bands) && |bs| == width * bands
    requires i < width && i % 2 == 0 && r < bands
    ensures r * width + i + 1 < |bs| && Position(bands, i / 2, r, 0) + 1 < |bs|
    ensures Packed(bs, width, bands)[Position(bands, i / 2, r, 0)]
         == Mix(bs[r * width + i], bs[r * width + i + 1])
    ensures Packed(bs, width, bands)[Position(bands, i / 2, r, 0) + 1]
         == Mix(bs[r * width + i] >> 4, bs[r * width + i + 1] >> 4)
  {
    PackedCell(bs, width, bands, i / 2, r, 0);
    PackedCell(bs, width, bands, i / 2, r, 1);
  }

  /** A buffer that holds every cell at its position is the packed buffer. */
  lemma PackedFromCells(t: seq<bv8>, bs: seq<bv8>, width: nat, bands: nat)
    requires Shape(width, bands) && |bs| == width * bands && |t| == width * bands
    requires forall p: nat, r: nat, h: nat :: p < width / 2 && r < bands && h < 2 ==>
      Position(bands, p, r, h) < |t| && t[Position(bands, p, r, h)] == Cell(bs, width, p, r, h)
    ensures t == Packed(bs, width, bands)
  {
    forall k | 0 <= k < |t|
      ensures t[k] == Packed(bs, width, bands)[k]
    {
      DecomposePosition(width, bands, k);
    }
  }

  /** The inverse of the conversion: rebuilds the bitmap from a packed buffer. */
  function Unpack(t: seq<bv8>, width: nat, bands: nat): (bs: seq<bv8>)
    requires Shape(width, bands) && |t| == width * bands
    ensures |bs| == |t|
  {
    seq(width * bands, i requires 0 <= i < width * bands => UnpackAt(t, width, bands, i))
  }

  /** Byte i = r*W + c of the rebuilt bitmap: the left (c even) or right
      byte that Unmix recovers from the two bytes of pair c/2, band r. */
  function UnpackAt(t: seq<bv8>, width: nat, bands: nat, i: nat): bv8
    requires Shape(width, bands) && |t| == width * bands && i < width * bands
  {
    DivBelow(i, width, bands);
    var r: nat, c: nat := i / width, i % width;
    PositionInRange(width, bands, c / 2, r, 0);
    PositionInRange(width, bands, c / 2, r, 1);
    var pair := Unmix(t[Position(bands, c / 2, r, 0)], t[Position(bands, c / 2, r, 1)]);
    if c % 2 == 0 then pair.0 else pair.1
  }

  /** The conversion loses nothing: every pixel of the bitmap can be read
      back from the packed buffer. */
  lemma UnpackPacked(bs: seq<bv8>, width: nat, bands: nat)
    requires Shape(width, bands) && |bs| == width * bands
    ensures Unpack(Packed(bs, width, bands), width, bands) == bs
  {
    var t := Packed(bs, width, bands);
    forall i | 0 <= i < width * bands
      ensures Unpack(t, width, bands)[i] == bs[i]
    {
      DivBelow(i, width, bands);
      var r, c := i / width, i % width;
      assert i == r * width + c;
      var p := c / 2;
      PackedCell(bs, width, bands, p, r, 0);
      PackedCell(bs, width, bands, p, r, 1);
      UnmixMix(bs[r * width + 2 * p], bs[r * width + 2 * p + 1]);
    }
  }

  /** Different bitmaps give different packed buffers. */
  lemma PackedInjective(a: seq<bv8>, b: seq<bv8>, width: nat, bands: nat)
    requires Shape(width, bands) && |a| == width * bands && |b| == width * bands
    ensures Packed(a, width, bands) == Packed(b, width, bands) <==> a == b
  {
    if Packed(a, width, bands) == Packed(b, width, bands) {
      UnpackPacked(a, width, bands);
      UnpackPacked(b, width, bands);
    }
  }

  /** The pixel at column x, row y of the bitmap. */
  function Pixel(bs: seq<bv8>, width: nat, x: nat, y: nat): bool
    requires x < width && (y / 8) * width + x < |bs|
  {
    Bit(bs[(y / 8) * width + x], y % 8)
  }

  /** Where each pixel lands: pixel (x, y) is bit 7 - 2(y mod 4) - (x mod 2)
      of the packed byte for column pair x/2, band y/8, half (y mod 8)/4. */
  lemma PixelLands(bs: seq<bv8>, width: nat, bands: nat, x: nat, y: nat)
    requires Shape(width, bands) && |bs| == width * bands
    requires x < width && y < 8 * bands
    ensures (y / 8) * width + x < |bs|
    ensures Position(bands, x / 2, y / 8, (y % 8) / 4) < |bs|
    ensures Bit(Packed(bs, width, bands)[Position(bands, x / 2, y / 8, (y % 8) / 4)],
                7 - 2 * ((y % 8) % 4) - x % 2)
            == Pixel(bs, width, x, y)
  {
    var p, r, n := x / 2, y / 8, y % 8;
    DivBelow(y, 8, bands);
    PackedCell(bs, width, bands, p, r, n / 4);
    SourceInRange(width, bands, r, x);
    var b1, b2 := bs[r * width + 2 * p], bs[r * width + 2 * p + 1];
    var out := Packed(bs, width, bands)[Position(bands, p, r, n / 4)];
    assert out == if n < 4 then MixLow(b1, b2) else MixHigh(b1, b2);
    Interleave(b1, b2, n);
    if x % 2 == 0 {
      assert bs[r * width + x] == b1;
    } else {
      assert bs[r * width + x] == b2;
    }
  }
}
