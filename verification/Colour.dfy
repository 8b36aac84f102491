/** Colour fields of the framebuffer: how `setcolreg` packs a colour into a pixel. */
module Colour {

  /** fb_bitfield. */
  datatype Bitfield = Bitfield(offset: bv32, length: bv32)

  /** fb_fix_screeninfo.visual. */
  datatype Visual = TrueColor | Mono01 | PseudoColor

  datatype Format = Format(red: Bitfield, green: Bitfield, blue: Bitfield)

  const RGB332 := Format(Bitfield(5, 3), Bitfield(2, 3), Bitfield(0, 2))
  const RGB444 := Format(Bitfield(8, 4), Bitfield(4, 4), Bitfield(0, 4))
  const RGB565 := Format(Bitfield(11, 5), Bitfield(5, 6), Bitfield(0, 5))
  const RGB5551 := Format(Bitfield(11, 5), Bitfield(6, 5), Bitfield(1, 5))
  const RGB888 := Format(Bitfield(16, 8), Bitfield(8, 8), Bitfield(0, 8))

  predicate Fits(bf: Bitfield) {
    bf.length <= 16 && bf.offset < 32
  }

  predicate FormatFits(f: Format) {
    Fits(f.red) && Fits(f.green) && Fits(f.blue)
  }

  /** The leading bits of a sixteen-bit channel. */
  function Top(chan: bv32, bf: Bitfield): bv32
    requires Fits(bf)
  {
    (chan & 0xffff) >> (16 - bf.length)
  }

  /** `chan_to_field`. */
  function ChanToField(chan: bv32, bf: Bitfield): bv32
    requires Fits(bf)
  {
    Top(chan, bf) << bf.offset
  }

  function Pack(f: Format, red: bv32, green: bv32, blue: bv32): bv32
    requires FormatFits(f)
  {
    ChanToField(red, f.red) | ChanToField(green, f.green) | ChanToField(blue, f.blue)
  }

  // ----- reading a pixel back -----

  function Mask(bf: Bitfield): bv32
    requires Fits(bf)
  {
    ((1 << bf.length) - 1) << bf.offset
  }

  function Extract(pixel: bv32, bf: Bitfield): bv32
    requires Fits(bf)
  {
    (pixel & Mask(bf)) >> bf.offset
  }

  /** The three fields do not overlap and stay within a pixel of `bits` bits. */
  predicate Separate(f: Format, bits: bv32)
    requires FormatFits(f) && bits <= 32
  {
    && Mask(f.red) & Mask(f.green) == 0
    && Mask(f.red) & Mask(f.blue) == 0
    && Mask(f.green) & Mask(f.blue) == 0
    && (bits == 32 || (Mask(f.red) | Mask(f.green) | Mask(f.blue)) >> bits == 0)
  }

  predicate Lossless(f: Format, red: bv32, green: bv32, blue: bv32)
    requires FormatFits(f)
  {
    var pixel := Pack(f, red, green, blue);
    && Extract(pixel, f.red) == Top(red, f.red)
    && Extract(pixel, f.green) == Top(green, f.green)
    && Extract(pixel, f.blue) == Top(blue, f.blue)
  }

  // ----- each true-colour format keeps its fields apart and loses nothing that fits -----

  lemma Lossless444(red: bv32, green: bv32, blue: bv32)
    ensures Separate(RGB444, 12) && Lossless(RGB444, red, green, blue)
  {
  }

  lemma Lossless565(red: bv32, green: bv32, blue: bv32)
    ensures Separate(RGB565, 16) && Lossless(RGB565, red, green, blue)
  {
  }

  lemma Lossless5551(red: bv32, green: bv32, blue: bv32)
    ensures Separate(RGB5551, 16) && Lossless(RGB5551, red, green, blue)
  {
  }

  lemma Lossless888(red: bv32, green: bv32, blue: bv32)
    ensures Separate(RGB888, 32) && Lossless(RGB888, red, green, blue)
  {
  }

  /** The hardware palette is always 5-6-5, and keeps the same bits `Pack` would. */
  function Palette565(red: bv32, green: bv32, blue: bv32): bv32 {
    (red & 0xf800) | ((green >> 5) & 0x07e0) | ((blue >> 11) & 0x001f)
  }

  lemma Palette565IsPack(red: bv32, green: bv32, blue: bv32)
    ensures Palette565(red, green, blue) == Pack(RGB565, red, green, blue)
    ensures Palette565(red, green, blue) <= 0xffff
  {
  }
}
