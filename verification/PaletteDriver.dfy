/** The driver's side of the palette protocol, over its shared buffer and the controller's registers. */
module PaletteDriver {
  import opened Palette
  import Colour

  /** The sources of the controller's interrupt; its mask and pending registers have one bit each. */
  datatype Source = FrameSyncInt | FifoInt

  /** The 5-6-5 colour `setcolreg` puts into the hardware palette. */
  function PaletteColour(red: bv32, green: bv32, blue: bv32): Palette.Colour {
    Colour.Palette565IsPack(red, green, blue);
    Colour.Palette565(red, green, blue) as bv16
  }

  /** The leading five bits of red, six of green and five of blue, from the top down. */
  lemma PaletteColourBits(red: bv32, green: bv32, blue: bv32)
    ensures var c := PaletteColour(red, green, blue);
            && (c >> 11) as bv32 == (red & 0xffff) >> 11
            && ((c >> 5) & 0x3f) as bv32 == (green & 0xffff) >> 10
            && (c & 0x1f) as bv32 == (blue & 0xffff) >> 11
  {
  }

  /** A colour change as the protocol sees it. */
  ghost function Recoloured(s: State, w: Writer, req: Request, stored: Palette.Colour, frames: seq<seq<Palette.Colour>>): State
    requires WellFormed(s) && w !in s.flight && req.regno < ENTRIES
    requires frames != [] ==> !s.masked
    requires forall results <- frames :: |results| == ENTRIES
  {
    Apply(AfterFrames(Apply(s, Step.Poke(w, req, stored)), frames), Step.Schedule(w))
  }

  class LcdPalette {
    const paletteBuffer: array<Entry>
    var paletteReady: bool
    const pseudoPalette: array<bv32>

    /** Controller registers: interrupt mask, pending bits, palette memory. */
    var intmsk: set<Source>
    var intpnd: set<Source>
    var srcpnd: set<Source>
    const tftpal: array<Palette.Colour>

    ghost var flight: map<Writer, Request>
    ghost var wanted: map<nat, Palette.Colour>
    ghost var requested: map<nat, Palette.Colour>

    ghost function Abs(): State
      reads this, paletteBuffer, tftpal
    {
      State(paletteBuffer[..], paletteReady, FrameSyncInt in intmsk, tftpal[..], flight, wanted, requested)
    }

    ghost predicate Valid()
      reads this, paletteBuffer, tftpal
    {
      && pseudoPalette.Length == 16
      && paletteBuffer as object != tftpal as object && pseudoPalette as object != tftpal as object
      && pseudoPalette as object != paletteBuffer as object
      && WellFormed(Abs())
    }

    /** What probe leaves behind: nothing pending. */
    constructor (mask: set<Source>, pal: array<Palette.Colour>)
      requires pal.Length == ENTRIES
      ensures Valid() && fresh(paletteBuffer) && fresh(pseudoPalette) && tftpal == pal
      ensures Abs() == Initial(FrameSyncInt in mask, pal[..])
    {
      paletteBuffer := new Entry[ENTRIES](_ => Clear);
      paletteReady := false;
      pseudoPalette := new bv32[16](_ => 0);
      intmsk, intpnd, srcpnd, tftpal := mask, {}, {}, pal;
      flight, wanted, requested := map[], map[], map[];
    }

    /** `results[i]` is what palette register i holds after a write to it. */
    method WritePalette(results: seq<Palette.Colour>)
      requires Valid() && |results| == ENTRIES
      modifies this`paletteReady, paletteBuffer, tftpal
      ensures Valid()
      ensures paletteBuffer[..] == Settle(old(paletteBuffer[..]), results)
      ensures tftpal[..] == WritePending(old(paletteBuffer[..]), old(tftpal[..]), results)
      ensures paletteReady <==> AnyPending(paletteBuffer[..])
    {
      ghost var before, pal := paletteBuffer[..], tftpal[..];
      paletteReady := false;
      for i := 0 to ENTRIES
        invariant forall j :: 0 <= j < i ==> paletteBuffer[j] == Settle(before, results)[j]
        invariant forall j :: i <= j < ENTRIES ==> paletteBuffer[j] == before[j]
        invariant forall j :: 0 <= j < i ==> tftpal[j] == WritePending(before, pal, results)[j]
        invariant forall j :: i <= j < ENTRIES ==> tftpal[j] == pal[j]
        invariant paletteReady <==> exists j :: 0 <= j < i && paletteBuffer[j].Pending?
      {
        var ent := paletteBuffer[i];
        if ent.Pending? {
          tftpal[i] := results[i];
          if tftpal[i] == ent.colour {
            paletteBuffer[i] := Clear;
          } else {
            paletteReady := true;
          }
        }
      }
    }

    /** The interrupt handler. */
    method Irq(results: seq<Palette.Colour>)
      requires Valid() && Enabled(Abs(), FrameSync(results))
      modifies this`paletteReady, this`intpnd, this`srcpnd, paletteBuffer, tftpal
      ensures Valid()
      ensures Abs() == if FrameSyncInt in old(intpnd) then Apply(old(Abs()), FrameSync(results)) else old(Abs())
      ensures intpnd == old(intpnd) - {FrameSyncInt}
      ensures srcpnd == if FrameSyncInt in old(intpnd) then old(srcpnd) - {FrameSyncInt} else old(srcpnd)
    {
      if FrameSyncInt in intpnd {
        if paletteReady {
          WritePalette(results);
        }
        intpnd := intpnd - {FrameSyncInt};
        srcpnd := srcpnd - {FrameSyncInt};
      }
    }

    /** The raw write: the register now holds `stored`, which need not be `val`. */
    method Poke(ghost w: Writer, regno: nat, val: Palette.Colour, stored: Palette.Colour)
      requires Valid() && w !in flight && regno < ENTRIES
      modifies this`flight, this`requested, tftpal
      ensures Valid()
      ensures Abs() == Apply(old(Abs()), Step.Poke(w, Request(regno, val), stored))
    {
      ghost var before := Abs();
      tftpal[regno] := stored;
      assert tftpal[..] == before.pal[regno := stored];
      flight := flight[w := Request(regno, val)];
      requested := requested[regno := val];
    }

    /** `schedule_palette_update`; interrupts are off throughout. */
    method Schedule(ghost w: Writer, regno: nat, val: Palette.Colour)
      requires Valid() && w in flight && flight[w] == Request(regno, val)
      modifies this`paletteReady, this`intmsk, this`flight, this`wanted, paletteBuffer
      ensures Valid()
      ensures Abs() == Apply(old(Abs()), Step.Schedule(w))
      ensures intmsk == if old(paletteReady) then old(intmsk) else old(intmsk) - {FrameSyncInt}
    {
      ghost var before := Abs();
      paletteBuffer[regno] := Pending(val);
      if !paletteReady {
        paletteReady := true;
        var irqen := intmsk;
        irqen := irqen - {FrameSyncInt};
        intmsk := irqen;
      }
      flight := flight - {w};
      wanted := wanted[regno := val];
      assert paletteBuffer[..] == before.buffer[regno := Pending(val)];
    }

    /** Frame interrupts that come in while a writer is between its two halves. */
    method TakeFrames(frames: seq<seq<Palette.Colour>>)
      requires Valid() && (frames != [] ==> FrameSyncInt !in intmsk)
      requires forall results <- frames :: |results| == ENTRIES
      modifies this`paletteReady, this`intpnd, this`srcpnd, paletteBuffer, tftpal
      ensures Valid()
      ensures Abs() == AfterFrames(old(Abs()), frames)
    {
      ghost var before := Abs();
      assert frames[..0] == [];
      for i := 0 to |frames|
        invariant Valid()
        invariant Abs() == AfterFrames(before, frames[..i])
      {
        intpnd := intpnd + {FrameSyncInt};
        assert frames[..i + 1][..i] == frames[..i];
        Irq(frames[i]);
      }
      assert frames[..|frames|] == frames;
    }

    /** The true-colour half of `setcolreg`. */
    method FillPseudoPalette(regno: nat, red: bv32, green: bv32, blue: bv32, format: Colour.Format)
      requires Valid() && Colour.FormatFits(format)
      modifies pseudoPalette
      ensures Valid() && Abs() == old(Abs())
      ensures pseudoPalette[..] == if regno < 16
                                   then old(pseudoPalette[..])[regno := Colour.Pack(format, red, green, blue)]
                                   else old(pseudoPalette[..])
    {
      if regno < 16 {
        var val := Colour.Pack(format, red, green, blue);
        pseudoPalette[regno] := val;
      }
    }

    /** The palette half. */
    method Recolour(ghost w: Writer, regno: nat, val: Palette.Colour, stored: Palette.Colour,
                    frames: seq<seq<Palette.Colour>>)
      requires Valid() && w !in flight && regno < ENTRIES
      requires frames != [] ==> FrameSyncInt !in intmsk
      requires forall results <- frames :: |results| == ENTRIES
      modifies this, paletteBuffer, tftpal
      ensures Valid()
      ensures Abs() == Recoloured(old(Abs()), w, Request(regno, val), stored, frames)
      ensures paletteBuffer[regno] == Pending(val)
    {
      Poke(w, regno, val, stored);
      TakeFrames(frames);
      Schedule(w, regno, val);
    }

    /** `setcolreg`. `stored` is the outcome of its raw write, `frames` the interrupts taken
        between that write and the scheduling. */
    method SetColReg(ghost w: Writer, regno: nat, red: bv32, green: bv32, blue: bv32, visual: Colour.Visual,
                     format: Colour.Format, stored: Palette.Colour, frames: seq<seq<Palette.Colour>>)
      returns (ret: int)
      requires Valid() && w !in flight && Colour.FormatFits(format)
      requires frames != [] ==> FrameSyncInt !in intmsk
      requires forall results <- frames :: |results| == ENTRIES
      modifies this, paletteBuffer, tftpal, pseudoPalette
      ensures Valid()
      ensures ret == if visual.Mono01? then 1 else 0
      ensures pseudoPalette[..] == if visual.TrueColor? && regno < 16
                                   then old(pseudoPalette[..])[regno := Colour.Pack(format, red, green, blue)]
                                   else old(pseudoPalette[..])
      ensures Abs() == if visual.PseudoColor? && regno < ENTRIES
                       then Recoloured(old(Abs()), w, Request(regno, PaletteColour(red, green, blue)), stored, frames)
                       else old(Abs())
      ensures visual.PseudoColor? && regno < 256 ==>
                paletteBuffer[regno].Pending? &&
                var c := paletteBuffer[regno].colour;
                && (c >> 11) as bv32 == (red & 0xffff) >> 11
                && ((c >> 5) & 0x3f) as bv32 == (green & 0xffff) >> 10
                && (c & 0x1f) as bv32 == (blue & 0xffff) >> 11
    {
      match visual
      case TrueColor =>
        FillPseudoPalette(regno, red, green, blue, format);
        return 0;
      case PseudoColor =>
        if regno < ENTRIES {
          PaletteColourBits(red, green, blue);
          Recolour(w, regno, PaletteColour(red, green, blue), stored, frames);
        }
        return 0;
      case Mono01 =>
        return 1;
    }
  }
}
