/** GPIO port B as the two codec drivers use it: three output lines driven by
    read-modify-write of one 32-bit data register. */
module Gpio {

  /** The levels of the three wires. `sel` is L3MODE for the UDA1341 and CSB for the WM8976. */
  datatype Lines = Lines(sel: bool, clk: bool, dat: bool)

  const SEL_BIT: bv32 := 0x04
  const DAT_BIT: bv32 := 0x08
  const CLK_BIT: bv32 := 0x10
  const WIRE_BITS: bv32 := 0x1c

  const ALL_HIGH := Lines(true, true, true)

  function Pins(word: bv32): Lines {
    Lines(word & SEL_BIT != 0, word & CLK_BIT != 0, word & DAT_BIT != 0)
  }

  /** Everything in the data register that does not belong to the codec. */
  function OtherPins(word: bv32): bv32 {
    word & !WIRE_BITS
  }

  /** The wires while one bit goes out: clock low, data set, clock high. */
  function BitTrace(l: Lines, bit: bool): seq<Lines> {
    [l.(clk := false), l.(clk := false, dat := bit), l.(clk := true, dat := bit)]
  }

  /** One read-modify-write of the data register: set or clear the bits of `mask`. */
  function Drive(word: bv32, mask: bv32, val: bool): bv32 {
    if val then word | mask else word & !mask
  }

  /** Bit 2 is mode or chip select, bit 3 data, bit 4 clock. */
  lemma PinsAre(word: bv32)
    ensures Pins(word) == Lines(word & 0x04 != 0, word & 0x10 != 0, word & 0x08 != 0)
    ensures OtherPins(word) == word & !0x1c
  {
  }

  lemma DriveSel(word: bv32, val: bool)
    ensures Pins(Drive(word, SEL_BIT, val)) == Pins(word).(sel := val)
    ensures OtherPins(Drive(word, SEL_BIT, val)) == OtherPins(word)
  {
  }

  lemma DriveClk(word: bv32, val: bool)
    ensures Pins(Drive(word, CLK_BIT, val)) == Pins(word).(clk := val)
    ensures OtherPins(Drive(word, CLK_BIT, val)) == OtherPins(word)
  {
  }

  lemma DriveDat(word: bv32, val: bool)
    ensures Pins(Drive(word, DAT_BIT, val)) == Pins(word).(dat := val)
    ensures OtherPins(Drive(word, DAT_BIT, val)) == OtherPins(word)
  {
  }

  class GpioBank {
    var gpbdat: bv32
    /** Every level pattern the wires went through, oldest first. */
    ghost var trace: seq<Lines>

    constructor (word: bv32)
      ensures gpbdat == word && trace == []
    {
      gpbdat := word;
      trace := [];
    }

    method SetSel(val: bool)
      modifies this
      ensures Pins(gpbdat) == old(Pins(gpbdat)).(sel := val)
      ensures OtherPins(gpbdat) == old(OtherPins(gpbdat))
      ensures trace == old(trace) + [Pins(gpbdat)]
    {
      DriveSel(gpbdat, val);
      gpbdat := Drive(gpbdat, SEL_BIT, val);
      trace := trace + [Pins(gpbdat)];
    }

    method SetClk(val: bool)
      modifies this
      ensures Pins(gpbdat) == old(Pins(gpbdat)).(clk := val)
      ensures OtherPins(gpbdat) == old(OtherPins(gpbdat))
      ensures trace == old(trace) + [Pins(gpbdat)]
    {
      DriveClk(gpbdat, val);
      gpbdat := Drive(gpbdat, CLK_BIT, val);
      trace := trace + [Pins(gpbdat)];
    }

    method SetDat(val: bool)
      modifies this
      ensures Pins(gpbdat) == old(Pins(gpbdat)).(dat := val)
      ensures OtherPins(gpbdat) == old(OtherPins(gpbdat))
      ensures trace == old(trace) + [Pins(gpbdat)]
    {
      DriveDat(gpbdat, val);
      gpbdat := Drive(gpbdat, DAT_BIT, val);
      trace := trace + [Pins(gpbdat)];
    }

    /** What both drivers do for each bit: set the data line while the clock is low. */
    method SendBit(bit: bool)
      modifies this
      ensures trace == old(trace) + BitTrace(old(Pins(gpbdat)), bit)
      ensures Pins(gpbdat) == old(Pins(gpbdat)).(clk := true, dat := bit)
      ensures OtherPins(gpbdat) == old(OtherPins(gpbdat))
    {
      SetClk(false);
      SetDat(bit);
      SetClk(true);
    }
  }
}
