/**
 * RGB565 pixel encodings used by the grey LCD display: packing 8-bit
 * channels into a 16-bit pixel, splitting it into the two bytes the LCD
 * expects (high byte first), and expanding 5- and 6-bit channels back to
 * 8 bits.
 */
module Rgb565 {

  /** `((r >> 3) << 11) | ((g >> 2) << 5) | (b >> 3)`: the top 5, 6 and 5 bits of each channel. */
  function Pack565(r: bv8, g: bv8, b: bv8): (p: bv16)
    ensures Red5(p) == r >> 3 && Green6(p) == g >> 2 && Blue5(p) == b >> 3
  {
    (((r >> 3) as bv16) << 11) | (((g >> 2) as bv16) << 5) | ((b >> 3) as bv16)
  }

  /** The 5-bit red field, bits 15..11. */
  function Red5(p: bv16): (f: bv8)
    ensures f <= 0x1F
  {
    ((p >> 11) & 0x1F) as bv8
  }

  /** The 6-bit green field, bits 10..5. */
  function Green6(p: bv16): (f: bv8)
    ensures f <= 0x3F
  {
    ((p >> 5) & 0x3F) as bv8
  }

  /** The 5-bit blue field, bits 4..0. */
  function Blue5(p: bv16): (f: bv8)
    ensures f <= 0x1F
  {
    (p & 0x1F) as bv8
  }

  /** `(hi << 8) | lo`: a big-endian byte pair read back as one pixel. */
  function JoinBytes(hi: bv8, lo: bv8): bv16 {
    ((hi as bv16) << 8) | (lo as bv16)
  }

  /** `[p >> 8, p & 0xFF]`: the pixel as the LCD stores it, high byte first. */
  function Bytes565(p: bv16): (bytes: seq<bv8>)
    ensures |bytes| == 2 && JoinBytes(bytes[0], bytes[1]) == p
  {
    [(p >> 8) as bv8, (p & 0xFF) as bv8]
  }

  /**
   * `(v * 255 + 15) / 31`: a 5-bit channel scaled to 8 bits (the sum fits in
   * 16 bits); dropping its low 3 bits gives `v` back.
   */
  function Expand5(v: bv8): (r: bv8)
    requires v <= 0x1F
    ensures r >> 3 == v
    ensures v == 0 ==> r == 0
    ensures v == 0x1F ==> r == 0xFF
  {
    (((v as bv16) * 255 + 15) / 31) as bv8
  }

  /**
   * `(v * 255 + 31) / 63`: a 6-bit channel scaled to 8 bits (the sum fits in
   * 16 bits); dropping its low 2 bits gives `v` back.
   */
  function Expand6(v: bv8): (r: bv8)
    requires v <= 0x3F
    ensures r >> 2 == v
    ensures v == 0 ==> r == 0
    ensures v == 0x3F ==> r == 0xFF
  {
    (((v as bv16) * 255 + 31) / 63) as bv8
  }

  /** The grey pixel of luminance `y`: red and blue both `y >> 3`, green `y >> 2`. */
  function Gray565(y: bv8): (p: bv16)
    ensures Red5(p) == y >> 3 && Blue5(p) == y >> 3 && Green6(p) == y >> 2
  {
    Pack565(y, y, y)
  }

  /** Packing and splitting lose exactly the low bits of each channel and nothing else. */
  lemma {:induction false} PackBytesRoundTrip(r: bv8, g: bv8, b: bv8)
    ensures var bytes := Bytes565(Pack565(r, g, b));
            var p := JoinBytes(bytes[0], bytes[1]);
            Red5(p) == r >> 3 && Green6(p) == g >> 2 && Blue5(p) == b >> 3
  {
    var p := Pack565(r, g, b);
    assert JoinBytes(Bytes565(p)[0], Bytes565(p)[1]) == p;
  }
}
