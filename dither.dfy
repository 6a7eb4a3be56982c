/**
 * The raw view of a dithered raylib image that both display packers read:
 * two bytes per pixel (grey and alpha), where after `dither(2, 2, 2, 2)`
 * the 2-bit grey level sits in bits 3..2 of the first byte. Raylib's
 * grayscale, brightness and dither transforms are library code; the packers
 * see only the resulting byte sequence.
 */
module Dither {

  /** `(image_data[2 * p] & 0b1100) >> 2`: the 2-bit grey level of pixel p. */
  function DitheredPixel(raw: seq<bv8>, p: nat): (v: bv8)
    requires 2 * p < |raw|
    ensures v <= 3
    ensures v == (raw[2 * p] >> 2) & 3
  {
    (raw[2 * p] & 0xC) >> 2
  }

  /** Bit `b` (0 = least significant) of a 2-bit level. */
  function LevelBit(v: bv8, b: nat): (r: bv8)
    requires b < 2
    ensures r <= 1
  {
    (v >> b) & 1
  }

  lemma LevelFromBits(v: bv8)
    requires v <= 3
    ensures 2 * LevelBit(v, 1) + LevelBit(v, 0) == v
  {
  }
}
