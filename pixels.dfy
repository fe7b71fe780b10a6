/**
  Packed ARGB pixels as returned by `Bitmap.getPixels` into a Kotlin `IntArray`,
  and the channel extraction `val shr 16 and 0xFF`, `val shr 8 and 0xFF`, `val and 0xFF`
  used by the tensor encoder.

  A Kotlin `Int` is a 32-bit two's-complement value. `shr` is an arithmetic shift, i.e.
  floor division by a power of two, and `and 0xFF` keeps the low byte of the two's-complement
  representation, i.e. the non-negative remainder modulo 256. Dafny's `/` by a positive
  constant is floor division and its `%` is Euclidean, so `(p / 0x1_0000) % 0x100` is
  exactly `p shr 16 and 0xFF` for every 32-bit `p`, negative ones included.
*/
module Pixels {

  /** A Kotlin `Int`. */
  type Int32 = x: int | -0x8000_0000 <= x < 0x8000_0000

  /** An 8-bit channel value. */
  type Byte = x: int | 0 <= x < 0x100

  /** Bits 24-31: dropped by the encoder. */
  function Alpha(p: Int32): Byte { (p / 0x100_0000) % 0x100 }

  /** `p shr 16 and 0xFF` */
  function Red(p: Int32): Byte { (p / 0x1_0000) % 0x100 }

  /** `p shr 8 and 0xFF` */
  function Green(p: Int32): Byte { (p / 0x100) % 0x100 }

  /** `p and 0xFF` */
  function Blue(p: Int32): Byte { p % 0x100 }

  /** Channel `c` in the order the encoder writes them: 0 = red, 1 = green, 2 = blue. */
  function Channel(p: Int32, c: nat): Byte
    requires c < 3
  {
    if c == 0 then Red(p) else if c == 1 then Green(p) else Blue(p)
  }

  /** The packed pixel with the given channels (as `Color.argb` builds it), read back as a signed `Int`. */
  function Argb(a: Byte, r: Byte, g: Byte, b: Byte): Int32 {
    var u := a * 0x100_0000 + r * 0x1_0000 + g * 0x100 + b;
    if u < 0x8000_0000 then u else u - 0x1_0000_0000
  }

  /** Channel extraction recovers every channel a packed pixel was built from. */
  lemma ArgbChannels(a: Byte, r: Byte, g: Byte, b: Byte)
    ensures Alpha(Argb(a, r, g, b)) == a
    ensures Red(Argb(a, r, g, b)) == r
    ensures Green(Argb(a, r, g, b)) == g
    ensures Blue(Argb(a, r, g, b)) == b
  {
    var p := Argb(a, r, g, b);
    // the sign correction subtracts 0x1_0000_0000, a multiple of every divisor used
    var k := if a * 0x100_0000 + r * 0x1_0000 + g * 0x100 + b < 0x8000_0000 then 0 else 1;
    assert p == (a - 0x100 * k) * 0x100_0000 + r * 0x1_0000 + g * 0x100 + b;
    assert p / 0x100_0000 == a - 0x100 * k;
    assert p / 0x1_0000 == (a - 0x100 * k) * 0x100 + r;
    assert p / 0x100 == ((a - 0x100 * k) * 0x100 + r) * 0x100 + g;
    assert p == (((a - 0x100 * k) * 0x100 + r) * 0x100 + g) * 0x100 + b;
  }

  /** Every 32-bit pixel is determined by its four channels. */
  lemma ArgbOfChannels(p: Int32)
    ensures Argb(Alpha(p), Red(p), Green(p), Blue(p)) == p
  {
    var q1 := p / 0x100;
    var q2 := q1 / 0x100;
    var q3 := q2 / 0x100;
    assert p / 0x1_0000 == q2;
    assert p / 0x100_0000 == q3;
    assert p == ((q3 * 0x100 + Red(p)) * 0x100 + Green(p)) * 0x100 + Blue(p);
    assert q3 == Alpha(p) || q3 == Alpha(p) - 0x100;
  }

  /** The extracted colour channels do not depend on the alpha byte. */
  lemma ChannelsIgnoreAlpha(p: Int32, a: Byte, c: nat)
    requires c < 3
    ensures Channel(Argb(a, Red(p), Green(p), Blue(p)), c) == Channel(p, c)
  {
    ArgbChannels(a, Red(p), Green(p), Blue(p));
  }

  /** `c / 255f`, taken as the exact ratio; the result always lies in [0, 1] and gives back `c`. */
  function Scale(c: Byte): (x: real)
    ensures 0.0 <= x <= 1.0
    ensures x * 255.0 == c as real
  {
    c as real / 255.0
  }
}
