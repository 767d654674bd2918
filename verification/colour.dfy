/**
 * `get_rgb`: the repacking of the design's 8-bit colour output `uo_out`
 * (red in bits 2..0, green in bits 5..3, blue in bits 7..6) into a
 * packed 3-3-2 byte (red in bits 7..5, green in bits 4..2, blue in bits 1..0).
 */
module Colour {
  import opened Bits

  /**
   * The repacked byte, built channel by channel as the testbench does; it
   * is the one-line 3-3-2 packing of the three channels.
   */
  function GetRgb(v: bv8): (c: bv8)
    ensures c == ((v & 7) << 5) | (((v >> 3) & 7) << 2) | ((v >> 6) & 3)
  {
    var red := (((v & 0x04) >> 2) << 2) | (((v & 0x02) >> 1) << 1) | (v & 0x01);
    var green := (((v & 0x20) >> 5) << 2) | (((v & 0x10) >> 4) << 1) | ((v & 0x08) >> 3);
    var blue := (((v & 0x80) >> 7) << 1) | ((v & 0x40) >> 6);
    (red << 5) | (green << 2) | blue
  }

  /** Where each channel lands in the repacked byte. */
  lemma GetRgbChannels(v: bv8)
    ensures GetRgb(v) >> 5 == v & 7                // red lands in the top three bits
    ensures (GetRgb(v) >> 2) & 7 == (v >> 3) & 7   // green in the middle three
    ensures GetRgb(v) & 3 == v >> 6                // blue in the bottom two
  {
  }

  /** The input bit that output bit `k` of the repacked byte comes from. */
  function SourceBit(k: nat): (j: nat)
    requires k < 8
    ensures j < 8
  {
    if k >= 5 then k - 5 else if k >= 2 then k + 1 else k + 6
  }

  /** Every output bit is exactly one input bit ... */
  lemma GetRgbBits(v: bv8, k: nat)
    requires k < 8
    ensures BitOf(GetRgb(v), k) == BitOf(v, SourceBit(k))
  {
  }

  /** ... and no two output bits share an input bit: `SourceBit` permutes 0..7. */
  lemma SourceBitInjective(k1: nat, k2: nat)
    requires k1 < 8 && k2 < 8
    ensures SourceBit(k1) == SourceBit(k2) ==> k1 == k2
  {
  }

  /** The inverse repacking, from a 3-3-2 byte back to the design's bit layout. */
  function RgbToOutput(c: bv8): (v: bv8)
    ensures v & 7 == c >> 5
    ensures (v >> 3) & 7 == (c >> 2) & 7
    ensures v >> 6 == c & 3
  {
    (c >> 5) | (((c >> 2) & 7) << 3) | ((c & 3) << 6)
  }

  /** Repacking loses nothing: the inverse recovers the design's byte. */
  lemma RgbRoundTrip(v: bv8)
    ensures RgbToOutput(GetRgb(v)) == v
  {
  }

  /** Every 3-3-2 byte is the colour of exactly one output byte. */
  lemma RgbSurjective(c: bv8)
    ensures GetRgb(RgbToOutput(c)) == c
  {
  }

  /** Distinct output bytes give distinct colour bytes. */
  lemma GetRgbInjective(v1: bv8, v2: bv8)
    ensures GetRgb(v1) == GetRgb(v2) ==> v1 == v2
  {
    RgbRoundTrip(v1);
    RgbRoundTrip(v2);
  }
}
