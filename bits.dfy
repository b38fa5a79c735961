/** The nibble interleave ("mix") that both converters apply to every pair of
    source bytes, and its inverse. A source byte of the MONO_VLSB bitmap holds
    eight vertically stacked pixels of one column, bit 0 topmost. */
module Bits {

  /** Bit `n` of `b`, counted from the least significant bit. */
  function Bit(b: bv8, n: nat): bool
    requires n < 8
  {
    (b >> n) & 1 == 1
  }

  /** The `mix` expression of the viper converter. It runs on machine words;
      the store into the 8-bit output buffer keeps the low byte, and the
      assertion below shows that nothing is cut off by it. Only bits 0-3 of
      each argument are read: bit n of `b1` lands at bit 7-2n and bit n of
      `b2` at bit 6-2n: the odd bits of the result hold the low nibble of
      `b1` and the even bits that of `b2`. */
  function Mix(b1: bv8, b2: bv8): (m: bv8)
    ensures Gather(m) == b1 & 0x0F && Gather(m << 1) == b2 & 0x0F
  {
    var w1, w2 := b1 as bv32, b2 as bv32;
    var word: bv32 := 0x00;
    var word := word | ((w1 & 0x01) << 7);
    var word := word | ((w2 & 0x01) << 6);
    var word := word | ((w1 & 0x02) << 4);
    var word := word | ((w2 & 0x02) << 3);
    var word := word | ((w1 & 0x04) << 1);
    var word := word | ((w2 & 0x04) << 0);
    var word := word | ((w1 & 0x08) >> 2);
    var word := word | ((w2 & 0x08) >> 3);
    assert word < 0x100;
    word as bv8
  }

  /** The low output byte of a source byte pair: the low nibbles interleaved. */
  function MixLow(b1: bv8, b2: bv8): bv8 { Mix(b1, b2) }

  /** The high output byte: the same interleave applied to the high nibbles. */
  function MixHigh(b1: bv8, b2: bv8): bv8 { Mix(b1 >> 4, b2 >> 4) }

  /** Collects the odd bit positions 7, 5, 3, 1 of `x` into bits 0, 1, 2, 3. */
  function Gather(x: bv8): (g: bv8)
    ensures g < 0x10
  {
    ((x >> 7) & 0x01) | ((x >> 4) & 0x02) | ((x >> 1) & 0x04) | ((x << 2) & 0x08)
  }

  /** Recovers the two source bytes from the low and high output bytes. */
  function Unmix(lo: bv8, hi: bv8): (pair: (bv8, bv8))
  {
    (Gather(lo) | (Gather(hi) << 4), Gather(lo << 1) | (Gather(hi << 1) << 4))
  }

  /** The bit map of `mix`, position by position. */
  lemma MixBits(b1: bv8, b2: bv8)
    ensures var m := Mix(b1, b2);
      Bit(m, 7) == Bit(b1, 0) && Bit(m, 6) == Bit(b2, 0) &&
      Bit(m, 5) == Bit(b1, 1) && Bit(m, 4) == Bit(b2, 1) &&
      Bit(m, 3) == Bit(b1, 2) && Bit(m, 2) == Bit(b2, 2) &&
      Bit(m, 1) == Bit(b1, 3) && Bit(m, 0) == Bit(b2, 3)
  {
  }

  /** Bit n (n = 0..3) of `b1` lands at bit 7-2n of the low byte, bit n of
      `b2` at bit 6-2n. */
  lemma MixLowBits(b1: bv8, b2: bv8, n: nat)
    requires n < 4
    ensures Bit(MixLow(b1, b2), 7 - 2 * n) == Bit(b1, n)
    ensures Bit(MixLow(b1, b2), 6 - 2 * n) == Bit(b2, n)
  {
    MixBits(b1, b2);
    if n == 0 {
    } else if n == 1 {
    } else if n == 2 {
    } else {
    }
  }

  /** The high byte places the upper four pixels (bits 4-7) of both columns
      with the same map as the low byte does for bits 0-3. */
  lemma MixHighBits(b1: bv8, b2: bv8, n: nat)
    requires n < 4
    ensures Bit(MixHigh(b1, b2), 7 - 2 * n) == Bit(b1, n + 4)
    ensures Bit(MixHigh(b1, b2), 6 - 2 * n) == Bit(b2, n + 4)
  {
    MixBits(b1 >> 4, b2 >> 4);
    if n == 0 {
      assert Bit(b1 >> 4, 0) == Bit(b1, 4) && Bit(b2 >> 4, 0) == Bit(b2, 4);
    } else if n == 1 {
      assert Bit(b1 >> 4, 1) == Bit(b1, 5) && Bit(b2 >> 4, 1) == Bit(b2, 5);
    } else if n == 2 {
      assert Bit(b1 >> 4, 2) == Bit(b1, 6) && Bit(b2 >> 4, 2) == Bit(b2, 6);
    } else {
      assert Bit(b1 >> 4, 3) == Bit(b1, 7) && Bit(b2 >> 4, 3) == Bit(b2, 7);
    }
  }

  /** The whole pixel map of a byte pair: bit n (n = 0..7) of `b1` goes to
      the low byte when n < 4 and to the high byte otherwise, at bit
      7-2(n mod 4); bit n of `b2` goes to the neighbouring bit 6-2(n mod 4). */
  lemma Interleave(b1: bv8, b2: bv8, n: nat)
    requires n < 8
    ensures var out := if n < 4 then MixLow(b1, b2) else MixHigh(b1, b2);
      Bit(out, 7 - 2 * (n % 4)) == Bit(b1, n) && Bit(out, 6 - 2 * (n % 4)) == Bit(b2, n)
  {
    if n < 4 { MixLowBits(b1, b2, n); } else { MixHighBits(b1, b2, n - 4); }
  }

  /** The low and high bytes together carry all sixteen source bits: Unmix
      gives both source bytes back. */
  lemma UnmixMix(b1: bv8, b2: bv8)
    ensures Unmix(MixLow(b1, b2), MixHigh(b1, b2)) == (b1, b2)
  {
  }

  /** ... and each of the sixteen bits is used exactly once: every pair of
      output bytes is the mix of exactly one pair of source bytes. */
  lemma MixUnmix(lo: bv8, hi: bv8)
    ensures MixLow(Unmix(lo, hi).0, Unmix(lo, hi).1) == lo
    ensures MixHigh(Unmix(lo, hi).0, Unmix(lo, hi).1) == hi
  {
  }
}
