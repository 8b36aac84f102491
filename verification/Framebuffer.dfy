/** Modes of the framebuffer: which ones are accepted, how much memory they scan, and what is
    programmed for them. */
module Framebuffer {
  import opened Arith
  import opened PixelClock
  import opened LcdControl
  import opened LcdTiming
  import opened Colour
  import opened Words
  import P = Palette
  import opened PaletteDriver

  /** A panel's mode, as the platform describes it. */
  datatype Display = Display(
    kind: bv32, width: u16, height: u16, pixclock: u32, xres: u16, yres: u16, bpp: u16,
    timing: Timing, lcdcon5: bv32)

  /** fb_var_screeninfo. */
  datatype Var = Var(
    xres: u32, yres: u32, bpp: u32, xresVirtual: u32, yresVirtual: u32, height: u32, width: u32,
    pixclock: u32, timing: Timing, format: Format, transp: Bitfield)

  // ----- which modes are accepted -----

  predicate Matches(d: Display, v: Var) {
    v.yres == d.yres && v.xres == d.xres && v.bpp == d.bpp
  }

  /** The default display needs no matching type; it has the default type. */
  predicate Acceptable(displays: seq<Display>, default: nat, k: nat, v: Var)
    requires default < |displays|
  {
    k < |displays| && Matches(displays[k], v) && displays[k].kind == displays[default].kind
  }

  /** The default display if it fits, else the first that does. */
  predicate IsChosen(displays: seq<Display>, default: nat, k: nat, v: Var)
    requires default < |displays|
  {
    && Acceptable(displays, default, k, v)
    && (k == default || (!Matches(displays[default], v) && forall j :: 0 <= j < k ==> !Acceptable(displays, default, j, v)))
  }

  function Grey(bpp: bv32): Format {
    Format(Bitfield(0, bpp), Bitfield(0, bpp), Bitfield(0, bpp))
  }

  function FormatFor(d: Display, bpp: nat): Format {
    match bpp
    case 1 => Grey(1)
    case 2 => Grey(2)
    case 4 => Grey(4)
    case 8 => if d.kind != TFT then RGB332 else Grey(8)
    case 12 => RGB444
    case 32 => RGB888
    case _ => if d.lcdcon5 & FRM565 != 0 then RGB565 else RGB5551
  }

  /** The mode with everything the display decides filled in. */
  function Fitted(d: Display, v: Var): Var {
    v.(xresVirtual := d.xres, yresVirtual := d.yres, height := d.height, width := d.width,
       pixclock := d.pixclock, timing := d.timing, format := FormatFor(d, v.bpp), transp := Bitfield(0, 0))
  }

  function VisualOf(bpp: nat): Visual {
    match bpp
    case 32 => TrueColor case 16 => TrueColor case 12 => TrueColor
    case 1 => Mono01
    case _ => PseudoColor
  }

  /** Every format a display decides has channels of at most sixteen bits at an offset inside the word, as
      the packing of pixels takes for granted. */
  lemma FormatsFit(d: Display, bpp: nat)
    ensures FormatFits(FormatFor(d, bpp))
  {
  }

  /** Where the channels lie: 4-4-4, 5-6-5 or 5-5-5 with a spare low bit as the display's FRM565 bit says,
      and 8-8-8, red on top; a palette index is the whole pixel. */
  lemma FormatsAre(d: Display)
    ensures FormatFor(d, 12) == Format(Bitfield(8, 4), Bitfield(4, 4), Bitfield(0, 4))
    ensures FormatFor(d, 16) == if d.lcdcon5 & 0x0800 != 0 then Format(Bitfield(11, 5), Bitfield(5, 6), Bitfield(0, 5))
                                else Format(Bitfield(11, 5), Bitfield(6, 5), Bitfield(1, 5))
    ensures FormatFor(d, 32) == Format(Bitfield(16, 8), Bitfield(8, 8), Bitfield(0, 8))
    ensures FormatFor(d, 8) == if d.kind == 0x60 then Format(Bitfield(0, 8), Bitfield(0, 8), Bitfield(0, 8))
                               else Format(Bitfield(5, 3), Bitfield(2, 3), Bitfield(0, 2))
    ensures forall bpp: nat :: bpp in {1, 2, 4} ==>
              var whole := Bitfield(0, bpp as bv32); FormatFor(d, bpp) == Format(whole, whole, whole)
  {
  }

  /** At 16 bits per pixel the format pixels are packed in is the one a TFT controller, once activated, is
      told to read: 5-6-5 if and only if FRM565 is set. */
  lemma ControllerReadsFormat(d: Display, rate: u32, pixclock: u32)
    requires d.kind & 0x60 == 0x60
    ensures Activate(Regs(d.kind, d.lcdcon5), 16, rate, pixclock).lcdcon5 & 0x0800 != 0
            <==> FormatFor(d, 16) == Format(Bitfield(11, 5), Bitfield(5, 6), Bitfield(0, 5))
  {
    TftType(d.kind);
    FormatsAre(d);
    ByteOrder16(d.lcdcon5);
    SameHighBits(TftLcdcon5(d.lcdcon5, 16), d.lcdcon5);
  }

  lemma SameHighBits(a: bv32, b: bv32)
    requires a & !0x0003 == b & !0x0003
    ensures a & 0x0800 == b & 0x0800
  {
  }

  /** Every mode shown in true colour keeps the leading bits of all three channels apart and intact. */
  lemma TrueColourIsLossless(d: Display, v: Var, red: bv32, green: bv32, blue: bv32)
    requires Matches(d, v) && VisualOf(v.bpp) == TrueColor
    ensures var f := Fitted(d, v).format;
            FormatFits(f) && Separate(f, v.bpp as bv32) && Lossless(f, red, green, blue)
  {
    TrueColourFormat(d, v.bpp);
    PixelIsLossless(FormatFor(d, v.bpp), v.bpp as bv32, red, green, blue);
  }

  predicate IsTrueColourFormat(f: Format, bits: bv32) {
    (f == RGB444 && bits == 12) || ((f == RGB565 || f == RGB5551) && bits == 16) || (f == RGB888 && bits == 32)
  }

  lemma TrueColourFormat(d: Display, bpp: u16)
    requires VisualOf(bpp) == TrueColor
    ensures IsTrueColourFormat(FormatFor(d, bpp), bpp as bv32)
  {
  }

  lemma PixelIsLossless(f: Format, bits: bv32, red: bv32, green: bv32, blue: bv32)
    requires IsTrueColourFormat(f, bits)
    ensures FormatFits(f) && Separate(f, bits) && Lossless(f, red, green, blue)
  {
    Lossless444(red, green, blue);
    Lossless565(red, green, blue);
    Lossless5551(red, green, blue);
    Lossless888(red, green, blue);
  }

  // ----- how much memory is scanned -----

  /** Bytes per line, in thirty-two bits. */
  function LineLength(v: Var): u32 {
    v.xresVirtual * v.bpp % WORD / 8
  }

  /** Bytes of video memory probe wants for a display, in thirty-two bits. */
  function Footprint(d: Display): u32 {
    d.xres * d.yres % WORD * d.bpp % WORD / 8
  }

  function LinesOf(bytes: u32, lines: u32): nat {
    bytes * lines
  }

  /** Bytes the controller scans for an accepted mode. */
  function Scanned(v: Var): nat {
    LinesOf(LineLength(v), v.yres)
  }

  lemma LineFits(d: Display, v: Var)
    requires Matches(d, v) && v.xresVirtual == d.xres
    ensures LineLength(v) == d.xres * d.bpp / 8
  {
    Monotone(d.xres, 0xffff, d.bpp, 0xffff);
    InWord(d.xres * d.bpp);
  }

  lemma FootprintIsProduct(d: Display)
    ensures Footprint(d) == d.xres * d.yres * d.bpp % WORD / 8
  {
    Monotone(d.xres, 0xffff, d.yres, 0xffff);
    InWord(d.xres * d.yres);
  }

  lemma InWord(n: nat)
    requires n < WORD
    ensures n % WORD == n
  {
  }

  /** Rounding each line down loses less than a byte a line. */
  lemma LinesOfBits(bits: nat, lines: nat)
    ensures 8 * (bits / 8 * lines) <= bits * lines <= 8 * (bits / 8 * lines) + 7 * lines
  {
    assert bits == 8 * (bits / 8) + bits % 8;
    assert bits * lines == 8 * (bits / 8 * lines) + bits % 8 * lines;
    Monotone(bits % 8, 7, lines, lines);
  }

  lemma WrapShrinks(product: nat, scanned: nat, lines: u16)
    requires 8 * scanned <= product <= 8 * scanned + 7 * lines
    ensures scanned <= product % WORD / 8 <==> product < WORD
  {
    QuotientBounds(product, WORD);
  }

  /** Width by height by depth. */
  function Product(d: Display): nat {
    d.xres * d.yres * d.bpp
  }

  /** Memory sized for a table of displays. */
  predicate RoomForAll(displays: seq<Display>, smemLen: nat) {
    forall k :: 0 <= k < |displays| ==> Footprint(displays[k]) <= smemLen
  }

  /** Whole bytes a line, and every line. */
  lemma ScannedIs(d: Display, v: Var)
    requires Matches(d, v)
    ensures Scanned(Fitted(d, v)) == d.xres * d.bpp / 8 * d.yres
  {
    LineFits(d, Fitted(d, v));
  }

  lemma ScanVersusFootprint(d: Display, v: Var)
    requires Matches(d, v)
    ensures Scanned(Fitted(d, v)) <= Footprint(d) <==> Product(d) < WORD
  {
    var v' := Fitted(d, v);
    LineFits(d, v');
    FootprintIsProduct(d);
    LinesOfBits(d.xres * d.bpp, d.yres);
    Swapped(d.xres, d.bpp, d.yres);
    WrapShrinks(Product(d), Scanned(v'), d.yres);
  }

  lemma Swapped(a: nat, b: nat, c: nat)
    ensures a * b * c == a * c * b
  {
  }

  /** For a table of any displays: whatever mode is accepted, if the product of the display chosen for
      it fits thirty-two bits, its scan stays within memory sized for the table. */
  lemma ScanFitsMemory(displays: seq<Display>, default: nat, k: nat, v: Var, smemLen: nat)
    requires default < |displays| && IsChosen(displays, default, k, v)
    requires RoomForAll(displays, smemLen) && Product(displays[k]) < WORD
    ensures Scanned(Fitted(displays[k], v)) <= smemLen
  {
    ScanVersusFootprint(displays[k], v);
  }

  /** For the single display that probe sets up, fitting thirty-two bits is the exact condition. */
  lemma ScanFitsExactly(d: Display, v: Var)
    requires Acceptable([d], 0, 0, v)
    ensures Scanned(Fitted(d, v)) <= Footprint(d) <==> Product(d) < WORD
  {
    ScanVersusFootprint(d, v);
  }

  /** A display of 65535 by 65535 at 32 bits gets half a gigabyte, and scans seventeen. */
  lemma HugeDisplayOverruns(d: Display, v: Var)
    requires d.xres == 65535 && d.yres == 65535 && d.bpp == 32 && Acceptable([d], 0, 0, v)
    ensures Footprint(d) == 536_346_628 && Scanned(Fitted(d, v)) == 17_179_344_900
  {
    FootprintIsProduct(d);
    LineFits(d, Fitted(d, v));
  }

  /** LCDSADDR2: the end of the scan in half-words, computed in thirty-two bits. */
  function EndAddress(start: u32, bytes: nat): nat {
    (start + bytes % WORD) % WORD / 2
  }

  /** The scan lies in memory of `smemLen` bytes from `start`, and its end address is the end of the
      scan, not a wrapped one. */
  predicate EndsInside(v: Var, start: u32, smemLen: nat) {
    && EndAddress(start, Scanned(v)) == (start + Scanned(v)) / 2
    && start / 2 <= EndAddress(start, Scanned(v)) <= (start + smemLen) / 2
  }

  /** For any accepted mode the end address does not wrap and lies in the memory. */
  lemma ScanEndsInside(displays: seq<Display>, default: nat, k: nat, v: Var, start: u32, smemLen: nat)
    requires default < |displays| && IsChosen(displays, default, k, v)
    requires RoomForAll(displays, smemLen) && Product(displays[k]) < WORD && start + smemLen < WORD
    ensures EndsInside(Fitted(displays[k], v), start, smemLen)
  {
    ScanFitsMemory(displays, default, k, v, smemLen);
    InWord(Scanned(Fitted(displays[k], v)));
    InWord(start + Scanned(Fitted(displays[k], v)));
  }

  // ----- the driver -----

  /** LCDCON2 to LCDCON4 for the panel type in LCDCON1. */
  function TimingFor(lcdcon1: bv32, bpp: nat, t: Timing, xres: bv32, yres: bv32): TimingRegs {
    if IsTft(lcdcon1) then TftTiming(t, xres, yres) else StnTiming(lcdcon1, bpp, t, xres, yres)
  }

  function TimingOf(r: Regs, v: Var): TimingRegs {
    TimingFor(r.lcdcon1, v.bpp, v.timing, v.xres as bv32, v.yres as bv32)
  }

  lemma TftType(lcdcon1: bv32)
    ensures IsTft(lcdcon1) <==> lcdcon1 & 0x60 == 0x60
  {
  }

  lemma TimingForTft(lcdcon1: bv32, bpp: nat, t: Timing, xres: bv32, yres: bv32)
    requires IsTft(lcdcon1)
    ensures TimingFor(lcdcon1, bpp, t, xres, yres) == TftTiming(t, xres, yres)
  {
  }

  lemma TimingForArrives(lcdcon1: bv32, bpp: nat, t: Timing, xres: bv32, yres: bv32)
    ensures lcdcon1 & 0x60 == 0x60 ==> HoldsIffFits(TimingFor(lcdcon1, bpp, t, xres, yres), t, xres, yres)
  {
    TftType(lcdcon1);
    if IsTft(lcdcon1) {
      TimingForTft(lcdcon1, bpp, t, xres, yres);
      TftHoldsIffFits(t, xres, yres);
    }
  }

  /** The controller has the sizes and margins of the mode if and only if they fit. */
  predicate ShowsIffFits(hw: TimingRegs, v: Var) {
    HoldsIffFits(hw, v.timing, v.xres as bv32, v.yres as bv32)
  }

  /** That is so on a TFT panel. */
  lemma TimingOfArrives(r: Regs, v: Var)
    ensures r.lcdcon1 & 0x60 == 0x60 ==> ShowsIffFits(TimingOf(r, v), v)
  {
    TimingForArrives(r.lcdcon1, v.bpp, v.timing, v.xres as bv32, v.yres as bv32);
  }

  /** The difference of two unsigned longs, kept in a long. */
  function SignedDifference(a: u32, b: u32): int {
    var d := (a - b) % WORD;
    if d >= WORD / 2 then d - WORD else d
  }

  const NO_MODE := Var(0, 0, 0, 0, 0, 0, 0, 0, Timing(0, 0, 0, 0, 0, 0), Grey(0), Bitfield(0, 0))

  class FramebufferDriver {
    const displays: seq<Display>
    const default: nat

    var info: Var
    var lineLength: u32
    var visual: Visual
    var smemStart: u32
    var smemLen: u32
    var clkRate: u32
    var regs: Regs

    /** What the controller has been given. */
    var hwLcdcon1: bv32
    var hwLcdcon5: bv32
    var hwTiming: TimingRegs
    var lcdsaddr1: nat
    var lcdsaddr2: nat
    var lcdsaddr3: nat

    /** What the mode registers have been through. */
    ghost var ctrl: Ctrl

    ghost predicate Valid()
      reads this
    {
      && default < |displays|
      && FormatFits(info.format)
      && ctrl.regs == regs && ctrl.bpp == info.bpp && ctrl.pixclock == info.pixclock && ctrl.rate == clkRate
    }

    /** The framebuffer starts out cleared. */
    constructor (displays: seq<Display>, default: nat, clkRate: u32)
      requires default < |displays|
      ensures Valid() && Checked(ctrl) && this.displays == displays && this.default == default
      ensures info == NO_MODE && smemLen == 0
    {
      this.displays, this.default := displays, default;
      this.info, this.clkRate, smemStart := NO_MODE, clkRate, 0;
      lineLength, visual, smemLen := 0, PseudoColor, 0;
      regs := Regs(0, 0);
      hwTiming := TimingRegs(0, 0, 0);
      hwLcdcon1, hwLcdcon5, lcdsaddr1, lcdsaddr2, lcdsaddr3 := 0, 0, 0, 0, 0;
      ctrl := Ctrl(Regs(0, 0), NO_MODE.bpp, NO_MODE.pixclock, clkRate, 0, []);
    }

    /** `check_var`. On success the registers are reset for the mode. */
    method CheckVar(v: Var) returns (ret: int, v': Var, ghost chosen: nat)
      requires Valid()
      modifies this`regs, this`ctrl
      ensures Valid()
      ensures ret == 0 || ret == -22
      ensures ret == 0 <==> exists k :: Acceptable(displays, default, k, v)
      ensures ret == 0 <==> exists k :: 0 <= k < |displays| && displays[k].kind == displays[default].kind
                                        && v.xres == displays[k].xres && v.yres == displays[k].yres && v.bpp == displays[k].bpp
      ensures ret == 0 ==>
                && IsChosen(displays, default, chosen, v)
                && var d := displays[chosen];
                && d.kind == displays[default].kind && v.xres == d.xres && v.yres == d.yres && v.bpp == d.bpp
                && (v.xres == displays[default].xres && v.yres == displays[default].yres && v.bpp == displays[default].bpp
                    ==> chosen == default)
                && (forall j :: 0 <= j < chosen && chosen != default && displays[j].kind == d.kind ==>
                      v.xres != displays[j].xres || v.yres != displays[j].yres || v.bpp != displays[j].bpp)
                && regs == Regs(d.kind, d.lcdcon5)
                && v'.xres == v.xres && v'.yres == v.yres && v'.bpp == v.bpp
                && v'.xresVirtual == d.xres && v'.yresVirtual == d.yres && v'.height == d.height && v'.width == d.width
                && v'.pixclock == d.pixclock && v'.timing == d.timing && v'.transp == Bitfield(0, 0)
      ensures ret == 0 ==>
                && chosen < |displays| && v' == Fitted(displays[chosen], v) && FormatFits(v'.format)
                && ctrl == Apply(old(ctrl), Check(displays[chosen].kind, displays[chosen].lcdcon5))
      ensures ret != 0 ==> v' == v && ctrl == old(ctrl)
    {
      var display := default;
      var found := Matches(displays[default], v);
      if !found {
        for i := 0 to |displays|
          invariant !found ==> forall j :: 0 <= j < i ==> !Acceptable(displays, default, j, v)
          invariant !found
        {
          if displays[default].kind == displays[i].kind && Matches(displays[i], v) {
            display, found := i, true;
            break;
          }
        }
      }
      if !found {
        forall k | 0 <= k < |displays| && displays[k].kind == displays[default].kind
          ensures !(v.xres == displays[k].xres && v.yres == displays[k].yres && v.bpp == displays[k].bpp)
        {
          assert !Acceptable(displays, default, k, v);
        }
        return -22, v, 0;
      }
      var d := displays[display];
      assert IsChosen(displays, default, display, v);
      forall j | 0 <= j < display && display != default && displays[j].kind == d.kind
        ensures v.xres != displays[j].xres || v.yres != displays[j].yres || v.bpp != displays[j].bpp
      {
        assert !Acceptable(displays, default, j, v);
      }
      regs := Regs(d.kind, d.lcdcon5);
      ctrl := Apply(ctrl, Check(d.kind, d.lcdcon5));
      FormatsFit(d, v.bpp);
      return 0, Fitted(d, v), display;
    }

    /** The framebuffer core makes a checked mode the current one. */
    method AdoptVar(v: Var)
      requires Valid() && FormatFits(v.format)
      modifies this`info, this`ctrl
      ensures Valid() && info == v && ctrl == Apply(old(ctrl), Adopt(v.bpp, v.pixclock))
    {
      info := v;
      ctrl := Apply(ctrl, Adopt(v.bpp, v.pixclock));
    }

    /** The start and end of the scan and the page width, in half-words. */
    method SetLcdAddr()
      modifies this`lcdsaddr1, this`lcdsaddr2, this`lcdsaddr3
      ensures lcdsaddr1 == smemStart / 2
      ensures lcdsaddr2 == EndAddress(smemStart, LinesOf(lineLength, info.yres))
      ensures lcdsaddr3 == lineLength / 2 % 0x400
    {
      lcdsaddr1 := smemStart / 2;
      var saddr2 := smemStart;
      saddr2 := (saddr2 + LinesOf(lineLength, info.yres) % WORD) % WORD;
      lcdsaddr2 := saddr2 / 2;
      lcdsaddr3 := lineLength / 2 % 0x400;
    }

    /** The controller gets the registers with the video off, then the addresses, then the video. */
    method ProgramRegs(timing: TimingRegs)
      modifies this`regs, this`hwLcdcon1, this`hwLcdcon5, this`hwTiming,
               this`lcdsaddr1, this`lcdsaddr2, this`lcdsaddr3
      ensures regs == WithBits(old(regs), ENVID)
      ensures hwLcdcon1 == regs.lcdcon1 && hwLcdcon5 == regs.lcdcon5 && hwTiming == timing
      ensures lcdsaddr1 == smemStart / 2
      ensures lcdsaddr2 == EndAddress(smemStart, LinesOf(lineLength, info.yres))
      ensures lcdsaddr3 == lineLength / 2 % 0x400
    {
      hwLcdcon1 := WithoutBits(regs, ENVID).lcdcon1;
      hwTiming := timing;
      hwLcdcon5 := regs.lcdcon5;
      SetLcdAddr();
      regs := WithBits(regs, ENVID);
      hwLcdcon1 := regs.lcdcon1;
    }

    method CalculateTiming() returns (timing: TimingRegs)
      ensures timing == TimingOf(regs, info)
      ensures regs.lcdcon1 & 0x60 == 0x60 ==> ShowsIffFits(timing, info)
    {
      timing := TimingOf(regs, info);
      TimingOfArrives(regs, info);
    }

    method ActivateVar()
      requires Valid()
      modifies this`regs, this`ctrl, this`hwLcdcon1, this`hwLcdcon5, this`hwTiming,
               this`lcdsaddr1, this`lcdsaddr2, this`lcdsaddr3
      ensures Valid()
      ensures ctrl == Activated(old(ctrl))
      ensures hwLcdcon1 == regs.lcdcon1 && hwLcdcon5 == regs.lcdcon5
      ensures hwTiming == TimingOf(old(regs), info)
      ensures old(regs).lcdcon1 & 0x60 == 0x60 ==> ShowsIffFits(hwTiming, info)
      ensures lcdsaddr1 == smemStart / 2
      ensures lcdsaddr2 == EndAddress(smemStart, LinesOf(lineLength, info.yres))
      ensures lcdsaddr3 == lineLength / 2 % 0x400
    {
      var clkval := Divisor(IsTft(regs.lcdcon1), clkRate, info.pixclock);
      DivisorInSteps(regs, info.bpp, clkval);
      var timing := CalculateTiming();
      regs := WithDepth(regs, info.bpp);
      regs := WithBits(regs, Clkval(clkval));
      ProgramRegs(timing);
      ctrl := Activated(ctrl);
    }

    method SetPar() returns (ret: int)
      requires Valid()
      modifies this`visual, this`lineLength, this`regs, this`ctrl, this`hwLcdcon1, this`hwLcdcon5, this`hwTiming,
               this`lcdsaddr1, this`lcdsaddr2, this`lcdsaddr3
      ensures Valid() && ret == 0
      ensures ctrl == Apply(old(ctrl), Event.SetPar)
      ensures hwLcdcon1 == regs.lcdcon1 && hwLcdcon5 == regs.lcdcon5
      ensures hwTiming == TimingOf(old(regs), info)
      ensures old(regs).lcdcon1 & 0x60 == 0x60 ==> ShowsIffFits(hwTiming, info)
      ensures visual == (if info.bpp in {12, 16, 32} then TrueColor else if info.bpp == 1 then Mono01 else PseudoColor)
      ensures lineLength == info.xresVirtual * info.bpp % 0x1_0000_0000 / 8
      ensures lcdsaddr1 == smemStart / 2
      ensures lcdsaddr2 == EndAddress(smemStart, Scanned(info))
      ensures lcdsaddr3 == lineLength / 2 % 0x400
    {
      visual := VisualOf(info.bpp);
      lineLength := LineLength(info);
      ActivateVar();
      return 0;
    }

    /** The whole way of a mode from a request to the controller: checked, made current, programmed. An
        accepted one whose product fits thirty-two bits is scanned inside the video memory. */
    method SetMode(v: Var) returns (ret: int, ghost chosen: nat)
      requires Valid() && RoomForAll(displays, smemLen)
      modifies this`info, this`visual, this`lineLength, this`regs, this`ctrl, this`hwLcdcon1, this`hwLcdcon5,
               this`hwTiming, this`lcdsaddr1, this`lcdsaddr2, this`lcdsaddr3
      ensures Valid()
      ensures ret == 0 <==> exists k :: Acceptable(displays, default, k, v)
      ensures ret == 0 ==> IsChosen(displays, default, chosen, v) && info == Fitted(displays[chosen], v)
      ensures ret == 0 ==>
                var d := displays[chosen];
                && info.timing == d.timing && info.xres == d.xres && info.yres == d.yres
                && (d.kind & 0x60 == 0x60 ==> ShowsIffFits(hwTiming, info))
      ensures ret == 0 ==> lcdsaddr1 == smemStart / 2 && lcdsaddr2 == EndAddress(smemStart, Scanned(info))
      ensures ret == 0 && Product(displays[chosen]) < WORD && smemStart + smemLen < WORD ==>
                EndsInside(info, smemStart, smemLen)
      ensures ret != 0 ==> info == old(info) && ctrl == old(ctrl) && lcdsaddr1 == old(lcdsaddr1) && lcdsaddr2 == old(lcdsaddr2)
    {
      var v';
      ret, v', chosen := CheckVar(v);
      if ret != 0 {
        return;
      }
      AdoptVar(v');
      assert regs.lcdcon1 == displays[chosen].kind;
      ret := SetPar();
      if Product(displays[chosen]) < WORD && smemStart + smemLen < WORD {
        ScanEndsInside(displays, default, chosen, v, smemStart, smemLen);
      }
    }

    /** From probe to the picture: memory for the largest display, allocated at `start`, and the mode
        of the default display. */
    method BringUp(start: u32) returns (ret: int)
      requires Valid()
      modifies this
      ensures Valid() && RoomForAll(displays, smemLen) && smemStart == start
      ensures ret == 0 && Matches(displays[default], info)
      ensures Product(displays[default]) < WORD && start + smemLen < WORD ==>
                lcdsaddr1 == start / 2 && lcdsaddr1 <= lcdsaddr2 <= (start + smemLen) / 2
    {
      SizeMemory();
      smemStart := start;
      var d := displays[default];
      var v := info.(xres := d.xres, yres := d.yres, bpp := d.bpp);
      assert Acceptable(displays, default, default, v);
      ghost var chosen;
      ret, chosen := SetMode(v);
    }

    /** `setcolreg` on the current mode, whose format check_var has decided. */
    method SetColour(palette: LcdPalette, ghost w: P.Writer, regno: nat, red: bv32, green: bv32, blue: bv32,
                     stored: P.Colour, frames: seq<seq<P.Colour>>)
      returns (ret: int)
      requires Valid() && palette.Valid() && w !in palette.flight
      requires frames != [] ==> FrameSyncInt !in palette.intmsk
      requires forall results <- frames :: |results| == P.ENTRIES
      modifies palette, palette.paletteBuffer, palette.tftpal, palette.pseudoPalette
      ensures palette.Valid()
      ensures ret == if visual.Mono01? then 1 else 0
      ensures palette.pseudoPalette[..] == if visual.TrueColor? && regno < 16
                                           then old(palette.pseudoPalette[..])[regno := Pack(info.format, red, green, blue)]
                                           else old(palette.pseudoPalette[..])
      ensures palette.Abs() == if visual.PseudoColor? && regno < P.ENTRIES
                               then Recoloured(old(palette.Abs()), w, P.Request(regno, PaletteColour(red, green, blue)), stored, frames)
                               else old(palette.Abs())
      ensures visual.PseudoColor? && regno < 256 ==>
                palette.paletteBuffer[regno].Pending? &&
                var c := palette.paletteBuffer[regno].colour;
                && (c >> 11) as bv32 == (red & 0xffff) >> 11
                && ((c >> 5) & 0x3f) as bv32 == (green & 0xffff) >> 10
                && (c & 0x1f) as bv32 == (blue & 0xffff) >> 11
    {
      ret := palette.SetColReg(w, regno, red, green, blue, visual, info.format, stored, frames);
    }

    /** A clock change acts after a slow-down and before a speed-up. */
    method CpuFreqTransition(postChange: bool, preChange: bool, newRate: u32)
      requires Valid()
      modifies this`clkRate, this`regs, this`ctrl, this`hwLcdcon1, this`hwLcdcon5, this`hwTiming,
               this`lcdsaddr1, this`lcdsaddr2, this`lcdsaddr3
      ensures Valid()
      ensures if (postChange && SignedDifference(old(clkRate), newRate) > 0) || (preChange && SignedDifference(old(clkRate), newRate) < 0)
              then ctrl == Apply(old(ctrl), CpuFreq(newRate)) && clkRate == newRate
              else ctrl == old(ctrl) && clkRate == old(clkRate)
      ensures clkRate == if (postChange && 0 < (old(clkRate) - newRate) % 0x1_0000_0000 < 0x8000_0000)
                            || (preChange && (old(clkRate) - newRate) % 0x1_0000_0000 >= 0x8000_0000)
                         then newRate else old(clkRate)
    {
      var delta := SignedDifference(clkRate, newRate);
      if (postChange && delta > 0) || (preChange && delta < 0) {
        clkRate := newRate;
        ctrl := ctrl.(rate := newRate);
        ActivateVar();
      }
    }

    /** Probe's search for the memory the largest display needs. */
    method SizeMemory()
      modifies this`smemLen
      ensures smemLen >= old(smemLen)
      ensures RoomForAll(displays, smemLen)
      ensures smemLen == old(smemLen) || exists k :: 0 <= k < |displays| && Footprint(displays[k]) == smemLen
    {
      ghost var before := smemLen;
      for i := 0 to |displays|
        invariant smemLen >= before
        invariant forall k :: 0 <= k < i ==> Footprint(displays[k]) <= smemLen
        invariant smemLen == before || exists k :: 0 <= k < i && Footprint(displays[k]) == smemLen
      {
        var len := displays[i].xres;
        len := len * displays[i].yres % WORD;
        len := len * displays[i].bpp % WORD;
        len := len / 8;
        assert len == Footprint(displays[i]);
        if smemLen < len {
          smemLen := len;
        }
      }
    }
  }
}
