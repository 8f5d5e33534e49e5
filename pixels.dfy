/** Raw 8-bit channel values and their normalisation to [0, 1]. */
module Pixels {

  /** One element of a `Buffer` or `Uint8ClampedArray`. */
  newtype Byte = b: int | 0 <= b < 256

  /** `value / 255.0`. */
  function Normalize(b: Byte): (r: real)
    ensures 0.0 <= r <= 1.0
    ensures r == 0.0 <==> b == 0
    ensures r == 1.0 <==> b == 255
  {
    b as real / 255.0
  }

  /** Normalisation keeps the order of the channel values, so it loses nothing. */
  lemma NormalizeStrictlyMonotone(a: Byte, b: Byte)
    ensures a < b <==> Normalize(a) < Normalize(b)
  {
  }
}
