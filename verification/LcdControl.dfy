/** The controller's mode registers: what activation does to them, and what is left in the
    clock field after any run of checks, mode changes, clock changes and activations. */
module LcdControl {
  import opened PixelClock
  import opened Words

  // Register layout of the LCD controller (LCDCON1 and LCDCON5).
  const ENVID: bv32 := 0x01
  const TFT: bv32 := 0x60
  const BSWP: bv32 := 0x0002
  const HWSWP: bv32 := 0x0001
  const FRM565: bv32 := 0x0800
  const BPP24BL: bv32 := 0x1000

  function ClkField(lcdcon1: bv32): bv32 {
    (lcdcon1 >> 8) & 0x3ff
  }

  function TypeField(lcdcon1: bv32): bv32 {
    lcdcon1 & 0x60
  }

  /** CLKVAL(x), which is x shifted left by eight and not confined to its field: the low ten bits of
      x go into the field, the others above it. */
  function Clkval(x: u32): bv32 {
    Shifted((x / 0x400) as bv32, TenBits(x % 0x400))
  }

  function Shifted(high: bv32, low: bv10): bv32 {
    (high << 18) | ((low as bv32) << 8)
  }

  /** A number below 1024 as ten bits, and back; the solver converts five at a time. */
  function TenBits(n: nat): bv10
    requires n < 1024
  {
    Joined((n / 32) as bv5, (n % 32) as bv5)
  }

  function Joined(high: bv5, low: bv5): bv10 {
    (high as bv10 << 5) | low as bv10
  }

  function NumberOf(bits: bv10): nat {
    (bits >> 5) as bv5 as nat * 32 + (bits & 0x1f) as bv5 as nat
  }

  /** The number in a clock field. */
  function Value(field: bv32): nat {
    NumberOf((field & 0x3ff) as bv10)
  }

  /** The bits-per-pixel code of a mode, bits 1 to 4. An unknown depth adds nothing. */
  function TftBpp(bpp: nat): bv32 {
    match bpp
    case 1 => 0x10 case 2 => 0x12 case 4 => 0x14 case 8 => 0x16 case 16 => 0x18 case 32 => 0x1a case _ => 0
  }

  function StnBpp(bpp: nat): bv32 {
    match bpp
    case 2 => 0x02 case 4 => 0x04 case 8 => 0x06 case 12 => 0x08 case _ => 0
  }

  function BppBits(tft: bool, bpp: nat): bv32 {
    if tft then TftBpp(bpp) else StnBpp(bpp)
  }

  function Divisor(tft: bool, rate: u32, pixclock: u32): u32 {
    if tft then TftClkval(CalcPixclk(rate, pixclock)) else StnClkval(CalcPixclk(rate, pixclock))
  }

  datatype Regs = Regs(lcdcon1: bv32, lcdcon5: bv32)

  function SetThenClear(w: bv32, on: bv32, off: bv32): bv32 {
    (w | on) & !off
  }

  /** The byte-order bits a TFT mode sets and clears. */
  function TftLcdcon5(lcdcon5: bv32, bpp: nat): bv32 {
    match bpp
    case 8 => SetThenClear(lcdcon5, BSWP | FRM565, HWSWP)
    case 16 => SetThenClear(lcdcon5, HWSWP, BSWP)
    case 32 => SetThenClear(lcdcon5, 0, BSWP | HWSWP | BPP24BL)
    case _ => lcdcon5
  }

  function Merge(lcdcon1: bv32, bpp: bv32, clk: bv32): bv32 {
    lcdcon1 | bpp | clk | ENVID
  }

  predicate IsTft(lcdcon1: bv32) {
    TypeField(lcdcon1) == TFT
  }

  /** What the depth of the mode adds. */
  function WithDepth(r: Regs, bpp: nat): Regs {
    Regs(r.lcdcon1 | BppBits(IsTft(r.lcdcon1), bpp), if IsTft(r.lcdcon1) then TftLcdcon5(r.lcdcon5, bpp) else r.lcdcon5)
  }

  function WithBits(r: Regs, bits: bv32): Regs {
    r.(lcdcon1 := r.lcdcon1 | bits)
  }

  function WithoutBits(r: Regs, bits: bv32): Regs {
    r.(lcdcon1 := r.lcdcon1 & !bits)
  }

  function WithDivisor(r: Regs, bpp: nat, div: u32): Regs {
    Regs(Merge(r.lcdcon1, BppBits(IsTft(r.lcdcon1), bpp), Clkval(div)),
         if IsTft(r.lcdcon1) then TftLcdcon5(r.lcdcon5, bpp) else r.lcdcon5)
  }

  /** The same in the steps of the driver. */
  lemma DivisorInSteps(r: Regs, bpp: nat, div: u32)
    ensures WithBits(WithBits(WithDepth(r, bpp), Clkval(div)), ENVID) == WithDivisor(r, bpp, div)
  {
  }

  /** `s3c2410fb_activate_var`: LCDCON1 is only ever OR-ed into. */
  function Activate(r: Regs, bpp: nat, rate: u32, pixclock: u32): Regs {
    WithDivisor(r, bpp, Divisor(IsTft(r.lcdcon1), rate, pixclock))
  }

  // ----- one activation -----

  lemma MergeFields(w: bv32, bpp: bv32, clk: bv32)
    requires bpp & !0x1e == 0 && clk & 0xff == 0
    ensures ClkField(Merge(w, bpp, clk)) == ClkField(w) | ClkField(clk)
    ensures TypeField(Merge(w, bpp, clk)) == TypeField(w)
  {
  }

  lemma ShiftedFields(high: bv32, low: bv10)
    ensures Shifted(high, low) & 0xff == 0
    ensures ClkField(Shifted(high, low)) == low as bv32
    ensures (low as bv32 & 0x3ff) as bv10 == low
  {
  }

  lemma TftBppFits(bpp: nat)
    ensures TftBpp(bpp) & !0x1e == 0
  {
  }

  lemma StnBppFits(bpp: nat)
    ensures StnBpp(bpp) & !0x1e == 0
  {
  }

  lemma OrTwice(w: bv32, b: bv32, c: bv32)
    ensures Merge(Merge(w, b, c), b, c) == Merge(w, b, c)
  {
  }

  lemma SetThenClearTwice(w: bv32, on: bv32, off: bv32)
    ensures SetThenClear(SetThenClear(w, on, off), on, off) == SetThenClear(w, on, off)
  {
  }

  lemma Lcdcon5Twice(w: bv32, bpp: nat)
    ensures TftLcdcon5(TftLcdcon5(w, bpp), bpp) == TftLcdcon5(w, bpp)
  {
    SetThenClearTwice(w, BSWP | FRM565, HWSWP);
    SetThenClearTwice(w, HWSWP, BSWP);
    SetThenClearTwice(w, 0, BSWP | HWSWP | BPP24BL);
  }

  lemma DivisorFields(r: Regs, bpp: nat, div: u32)
    ensures ClkField(WithDivisor(r, bpp, div).lcdcon1) == ClkField(r.lcdcon1) | ClkField(Clkval(div))
    ensures TypeField(WithDivisor(r, bpp, div).lcdcon1) == TypeField(r.lcdcon1)
  {
    TftBppFits(bpp);
    StnBppFits(bpp);
    ShiftedFields((div / 0x400) as bv32, TenBits(div % 0x400));
    MergeFields(r.lcdcon1, BppBits(IsTft(r.lcdcon1), bpp), Clkval(div));
  }

  lemma DivisorTwice(r: Regs, bpp: nat, div: u32)
    ensures WithDivisor(WithDivisor(r, bpp, div), bpp, div) == WithDivisor(r, bpp, div)
  {
    DivisorFields(r, bpp, div);
    OrTwice(r.lcdcon1, BppBits(IsTft(r.lcdcon1), bpp), Clkval(div));
    Lcdcon5Twice(r.lcdcon5, bpp);
  }

  /** The divisor is added to the clock field, and the panel type stays. */
  lemma ActivateFields(r: Regs, bpp: nat, rate: u32, pixclock: u32)
    ensures ClkField(Activate(r, bpp, rate, pixclock).lcdcon1)
         == ClkField(r.lcdcon1) | ClkField(Clkval(Divisor(IsTft(r.lcdcon1), rate, pixclock)))
    ensures TypeField(Activate(r, bpp, rate, pixclock).lcdcon1) == TypeField(r.lcdcon1)
  {
    DivisorFields(r, bpp, Divisor(IsTft(r.lcdcon1), rate, pixclock));
  }

  /** Activating again with the same mode and clock changes nothing. */
  lemma ActivateTwice(r: Regs, bpp: nat, rate: u32, pixclock: u32)
    ensures var r' := Activate(r, bpp, rate, pixclock);
            Activate(r', bpp, rate, pixclock) == r'
  {
    DivisorFields(r, bpp, Divisor(IsTft(r.lcdcon1), rate, pixclock));
    DivisorTwice(r, bpp, Divisor(IsTft(r.lcdcon1), rate, pixclock));
  }

  /** LCDCON1 bits 1 to 4. */
  function DepthField(lcdcon1: bv32): bv32 {
    (lcdcon1 >> 1) & 0xf
  }

  lemma MergeDepth(w: bv32, bpp: bv32, clk: bv32)
    requires bpp & !0x1e == 0 && clk & 0xff == 0
    ensures DepthField(Merge(w, bpp, clk)) == DepthField(w) | (bpp >> 1)
    ensures Merge(w, bpp, clk) & 0x01 == 0x01
  {
  }

  lemma ZeroOr(b: bv32)
    ensures 0 | b == b
  {
  }

  lemma TftCodes(bpp: nat)
    requires bpp in {1, 2, 4, 8, 16, 32}
    ensures TftBpp(bpp) >> 1 == if bpp == 1 then 8 else if bpp == 2 then 9 else if bpp == 4 then 10
                                else if bpp == 8 then 11 else if bpp == 16 then 12 else 13
  {
  }

  lemma StnCodes(bpp: nat)
    requires bpp in {1, 2, 4, 8, 12}
    ensures StnBpp(bpp) >> 1 == if bpp == 1 then 0 else if bpp == 2 then 1 else if bpp == 4 then 2
                                else if bpp == 8 then 3 else 4
  {
  }

  /** An activation turns the video on, and with the depth field clear it programs the code of the mode's
      depth: 8 to 13 for a TFT panel, 0 to 4 for any other. */
  lemma DepthIsProgrammed(r: Regs, bpp: nat, rate: u32, pixclock: u32)
    requires DepthField(r.lcdcon1) == 0
    ensures var lcdcon1 := Activate(r, bpp, rate, pixclock).lcdcon1;
            && lcdcon1 & 0x01 == 0x01
            && DepthField(lcdcon1) == BppBits(IsTft(r.lcdcon1), bpp) >> 1
  {
    var div := Divisor(IsTft(r.lcdcon1), rate, pixclock);
    TftBppFits(bpp);
    StnBppFits(bpp);
    ShiftedFields((div / 0x400) as bv32, TenBits(div % 0x400));
    MergeDepth(r.lcdcon1, BppBits(IsTft(r.lcdcon1), bpp), Clkval(div));
    ZeroOr(BppBits(IsTft(r.lcdcon1), bpp) >> 1);
  }

  lemma SetThenClearBits(w: bv32, on: bv32, off: bv32)
    requires on & off == 0
    ensures SetThenClear(w, on, off) & (on | off) == on
    ensures SetThenClear(w, on, off) & !(on | off) == w & !(on | off)
  {
  }

  // The byte order of a TFT mode: half-words swapped at 16 bits per pixel, where 5-6-5 or 5-5-5 stays as
  // it was; bytes swapped at 8, with a 5-6-5 palette; nothing swapped at 32; no change at other depths.

  lemma ByteOrder16(w: bv32)
    ensures TftLcdcon5(w, 16) & 0x0003 == 0x0001 && TftLcdcon5(w, 16) & !0x0003 == w & !0x0003
  {
    SetThenClearBits(w, 0x0001, 0x0002);
  }

  lemma ByteOrder8(w: bv32)
    ensures TftLcdcon5(w, 8) & 0x0803 == 0x0802 && TftLcdcon5(w, 8) & !0x0803 == w & !0x0803
  {
    SetThenClearBits(w, 0x0802, 0x0001);
  }

  lemma ByteOrder32(w: bv32)
    ensures TftLcdcon5(w, 32) & 0x1003 == 0 && TftLcdcon5(w, 32) & !0x1003 == w & !0x1003
  {
    SetThenClearBits(w, 0, 0x1003);
  }

  lemma ByteOrderElse(w: bv32, bpp: nat)
    requires bpp !in {8, 16, 32}
    ensures TftLcdcon5(w, bpp) == w
  {
  }

  // ----- any run -----

  /** `base` is what the last mode check put into LCDCON1, `clks` the clock field values of the
      activations since. */
  datatype Ctrl = Ctrl(regs: Regs, bpp: nat, pixclock: u32, rate: u32, base: bv32, clks: seq<bv32>)

  /** A mode check resets the registers, Adopt makes its mode the current one, SetPar activates
      it, and a cpufreq transition changes the clock and activates at once. */
  datatype Event =
    | Check(kind: bv32, lcdcon5: bv32)
    | Adopt(bpp: nat, pixclock: u32)
    | SetPar
    | CpuFreq(rate: u32)

  function Fresh(s: Ctrl): bv32 {
    ClkField(Clkval(Divisor(IsTft(s.base), s.rate, s.pixclock)))
  }

  function Activated(s: Ctrl): Ctrl {
    s.(regs := Activate(s.regs, s.bpp, s.rate, s.pixclock), clks := s.clks + [Fresh(s)])
  }

  function Apply(s: Ctrl, e: Event): Ctrl {
    match e
    case Check(kind, lcdcon5) => s.(regs := Regs(kind, lcdcon5), base := kind, clks := [])
    case Adopt(bpp, pixclock) => s.(bpp := bpp, pixclock := pixclock)
    case SetPar => Activated(s)
    case CpuFreq(rate) => Activated(s.(rate := rate))
  }

  function Run(s: Ctrl, es: seq<Event>): Ctrl
    decreases |es|
  {
    if es == [] then s else Apply(Run(s, es[..|es| - 1]), es[|es| - 1])
  }

  function OrAll(clks: seq<bv32>): bv32
    decreases |clks|
  {
    if clks == [] then 0 else OrAll(clks[..|clks| - 1]) | clks[|clks| - 1]
  }

  /** Probe checks a mode first of all. */
  predicate Checked(s: Ctrl) {
    s.regs.lcdcon1 == s.base && s.clks == []
  }

  /** The clock field is the union of everything activated since the last check. */
  predicate Accumulated(s: Ctrl) {
    && ClkField(s.regs.lcdcon1) == ClkField(s.base) | OrAll(s.clks)
    && TypeField(s.regs.lcdcon1) == TypeField(s.base)
  }

  lemma ActivatedAccumulates(s: Ctrl)
    requires Accumulated(s)
    ensures Accumulated(Activated(s))
  {
    ActivateFields(s.regs, s.bpp, s.rate, s.pixclock);
    OrSnoc(s.clks, Fresh(s));
    OrAssociates(ClkField(s.base), OrAll(s.clks), Fresh(s));
  }

  lemma OrAssociates(a: bv32, b: bv32, c: bv32)
    ensures (a | b) | c == a | (b | c)
    ensures a | 0 == a
  {
  }

  lemma ApplyAccumulates(s: Ctrl, e: Event)
    requires Accumulated(s)
    ensures Accumulated(Apply(s, e))
  {
    match e
    case Check(kind, lcdcon5) => CheckedAccumulates(Apply(s, e));
    case Adopt(bpp, pixclock) => SameAccumulates(s, Apply(s, e));
    case SetPar => ActivatedAccumulates(s);
    case CpuFreq(rate) =>
      SameAccumulates(s, s.(rate := rate));
      ActivatedAccumulates(s.(rate := rate));
  }

  lemma SameAccumulates(s: Ctrl, t: Ctrl)
    requires Accumulated(s) && t.regs == s.regs && t.base == s.base && t.clks == s.clks
    ensures Accumulated(t)
  {
  }

  lemma CheckedAccumulates(s: Ctrl)
    requires Checked(s)
    ensures Accumulated(s)
  {
    OrAssociates(ClkField(s.base), 0, 0);
  }

  /** In every run, whatever its order, the clock field accumulates. */
  lemma {:induction false} RunAccumulates(s: Ctrl, es: seq<Event>)
    requires Checked(s)
    ensures Accumulated(Run(s, es))
    decreases |es|
  {
    if es == [] {
      CheckedAccumulates(s);
    } else {
      RunAccumulates(s, es[..|es| - 1]);
      ApplyAccumulates(Run(s, es[..|es| - 1]), es[|es| - 1]);
    }
  }

  /** The clock field is exactly the divisor that belongs to the current clock and mode. */
  predicate CarriesFresh(s: Ctrl) {
    ClkField(s.regs.lcdcon1) == Fresh(s)
  }

  /** So an activation programs the divisor just computed if and only if nothing left over since
      the last check has a bit outside it. */
  lemma FreshIffSubset(s: Ctrl, es: seq<Event>)
    requires Checked(s)
    ensures var before := Run(s, es);
            CarriesFresh(Apply(before, SetPar)) <==> NothingOutside(LeftOver(before), Fresh(before))
  {
    RunAccumulates(s, es);
    CarriesFreshIff(Run(s, es));
  }

  /** The same for the activation inside a cpufreq transition, and the divisor of the new rate. */
  lemma CpuFreqFreshIffSubset(s: Ctrl, es: seq<Event>, rate: u32)
    requires Checked(s)
    ensures var before := Run(s, es);
            var after := Apply(before, CpuFreq(rate));
            CarriesFresh(after) <==> NothingOutside(LeftOver(before), Fresh(after))
  {
    RunAccumulates(s, es);
    var before := Run(s, es);
    SameAccumulates(before, before.(rate := rate));
    CarriesFreshIff(before.(rate := rate));
    FreshAfter(before.(rate := rate));
    SameLeftOver(before, before.(rate := rate));
  }

  lemma FreshAfter(s: Ctrl)
    ensures Fresh(Activated(s)) == Fresh(s)
  {
  }

  lemma SameLeftOver(s: Ctrl, t: Ctrl)
    requires t.base == s.base && t.clks == s.clks
    ensures LeftOver(t) == LeftOver(s)
  {
  }

  lemma CarriesFreshIff(s: Ctrl)
    requires Accumulated(s)
    ensures CarriesFresh(Activated(s)) <==> NothingOutside(LeftOver(s), Fresh(s))
  {
    ActivatedField(s);
    FreshAfter(s);
    FreshIffInside(LeftOver(s), ClkField(Activated(s).regs.lcdcon1), Fresh(s));
  }

  /** The clock bits left over since the last check. */
  function LeftOver(s: Ctrl): bv32 {
    ClkField(s.base) | OrAll(s.clks)
  }

  predicate NothingOutside(bits: bv32, clk: bv32) {
    bits & !clk == 0
  }

  lemma ActivatedField(s: Ctrl)
    requires Accumulated(s)
    ensures ClkField(Activated(s).regs.lcdcon1) == LeftOver(s) | Fresh(s)
  {
    ActivateFields(s.regs, s.bpp, s.rate, s.pixclock);
  }

  lemma FreshIffInside(left: bv32, field: bv32, clk: bv32)
    requires field == left | clk
    ensures field == clk <==> NothingOutside(left, clk)
  {
    SubsetOr(left, clk);
  }

  lemma SubsetOr(a: bv32, b: bv32)
    ensures a | b == b <==> a & !b == 0
  {
  }

  /** Every activation since the last check used the clock and mode that are still current. */
  predicate Steady(s: Ctrl) {
    forall c <- s.clks :: c == Fresh(s)
  }

  /** A change of clock or mode is careful before the first activation after a check. */
  predicate CarefulEvent(s: Ctrl, e: Event) {
    match e
    case Adopt(_, pixclock) => pixclock == s.pixclock || s.clks == []
    case CpuFreq(rate) => rate == s.rate || s.clks == []
    case _ => true
  }

  predicate Careful(s: Ctrl, es: seq<Event>)
    decreases |es|
  {
    es == [] || (Careful(s, es[..|es| - 1]) && CarefulEvent(Run(s, es[..|es| - 1]), es[|es| - 1]))
  }

  lemma SteadyMeans(s: Ctrl, t: Ctrl)
    requires Steady(s) && t.clks == s.clks && t.base == s.base
    requires s.clks == [] || (t.rate == s.rate && t.pixclock == s.pixclock)
    ensures Steady(t)
  {
    if s.clks != [] {
      assert Fresh(t) == Fresh(s);
    }
  }

  lemma ActivatedSteady(s: Ctrl)
    requires Steady(s)
    ensures Steady(Activated(s))
  {
    var clk := Fresh(s);
    assert Fresh(Activated(s)) == clk;
    forall c | c in s.clks + [clk]
      ensures c == clk
    {
    }
  }

  lemma ApplyKeepsSteady(s: Ctrl, e: Event)
    requires Steady(s) && CarefulEvent(s, e)
    ensures Steady(Apply(s, e))
  {
    match e
    case Check(_, _) =>
    case Adopt(_, _) => SteadyMeans(s, Apply(s, e));
    case SetPar => ActivatedSteady(s);
    case CpuFreq(rate) =>
      SteadyMeans(s, s.(rate := rate));
      ActivatedSteady(s.(rate := rate));
  }

  lemma {:induction false} CarefulKeepsSteady(s: Ctrl, es: seq<Event>)
    requires Checked(s) && Careful(s, es)
    ensures Steady(Run(s, es))
    decreases |es|
  {
    if es != [] {
      CarefulKeepsSteady(s, es[..|es| - 1]);
      ApplyKeepsSteady(Run(s, es[..|es| - 1]), es[|es| - 1]);
    }
  }

  lemma {:induction false} OrOfEqual(clks: seq<bv32>, c: bv32)
    requires clks != [] && forall x <- clks :: x == c
    ensures OrAll(clks) == c
    decreases |clks|
  {
    SameOr(c);
    assert clks[|clks| - 1] in clks;
    if |clks| == 1 {
      assert OrAll(clks[..0]) == 0;
    } else {
      var init := clks[..|clks| - 1];
      assert forall x <- init :: x in clks;
      OrOfEqual(init, c);
    }
  }

  lemma SameOr(c: bv32)
    ensures c | c == c && 0 | c == c
  {
  }

  /** In a careful run, with a panel type that has no clock bits, the clock field is the divisor
      freshly computed from the current clock and mode whenever the mode is active. */
  lemma CarefulIsFresh(s: Ctrl, es: seq<Event>)
    requires Checked(s) && Careful(s, es)
    ensures var s' := Run(s, es);
            s'.clks != [] && ClkField(s'.base) == 0 ==> CarriesFresh(s')
  {
    RunAccumulates(s, es);
    CarefulKeepsSteady(s, es);
    if Run(s, es).clks != [] {
      OrOfEqual(Run(s, es).clks, Fresh(Run(s, es)));
      SameOr(Fresh(Run(s, es)));
    }
  }

  lemma Halves(high: bv5, low: bv5)
    ensures (Joined(high, low) >> 5) as bv5 == high && (Joined(high, low) & 0x1f) as bv5 == low
  {
  }

  lemma FiveBits(n: nat)
    requires n < 32
    ensures n as bv5 as nat == n
  {
  }

  lemma TenBitsBack(n: nat)
    requires n < 1024
    ensures NumberOf(TenBits(n)) == n
  {
    Halves((n / 32) as bv5, (n % 32) as bv5);
    FiveBits(n / 32);
    FiveBits(n % 32);
  }

  /** The field keeps the low ten bits of what was computed. */
  lemma FieldIsDivisor(x: u32)
    ensures Value(ClkField(Clkval(x))) == x % 1024
  {
    ShiftedFields((x / 0x400) as bv32, TenBits(x % 0x400));
    TenBitsBack(x % 0x400);
  }

  lemma CleanActivation(r: Regs, bpp: nat, rate: u32, pixclock: u32)
    requires ClkField(r.lcdcon1) == 0
    ensures Value(ClkField(Activate(r, bpp, rate, pixclock).lcdcon1)) == Divisor(IsTft(r.lcdcon1), rate, pixclock) % 1024
  {
    var div := Divisor(IsTft(r.lcdcon1), rate, pixclock);
    ActivateFields(r, bpp, rate, pixclock);
    SameOr(ClkField(Clkval(div)));
    FieldIsDivisor(div);
  }

  /** The same for an STN panel, whose divisor is twice the field. */
  lemma StnClockWithinOne(r: Regs, bpp: nat, rate: u32, pixclock: u32)
    requires !IsTft(r.lcdcon1) && ClkField(r.lcdcon1) == 0
    ensures var programmed := 2 * Value(ClkField(Activate(r, bpp, rate, pixclock).lcdcon1));
            -PICO <= programmed * PICO - rate * pixclock <= PICO <==> 3 * PICO <= rate * pixclock < 2047 * PICO
  {
    CleanActivation(r, bpp, rate, pixclock);
    StnFieldRounding(rate, pixclock);
  }

  /** An activation from a clean clock field programs the true divisor rate * pixclock / 10^12 to
      within one unit if and only if that divisor is at least one and less than 2049. */
  lemma TftClockWithinOne(r: Regs, bpp: nat, rate: u32, pixclock: u32)
    requires IsTft(r.lcdcon1) && ClkField(r.lcdcon1) == 0
    ensures WithinOne(Value(ClkField(Activate(r, bpp, rate, pixclock).lcdcon1)), rate, pixclock)
            <==> PICO <= rate * pixclock < 2049 * PICO
  {
    CleanActivation(r, bpp, rate, pixclock);
    FieldRounding(rate, pixclock);
  }

  /** Past the ten bits of its field the divisor wraps: a 62.5 kHz pixel clock at 133 MHz needs 2128
      and gets 80. */
  lemma TftClockWraps(r: Regs, bpp: nat)
    requires IsTft(r.lcdcon1) && ClkField(r.lcdcon1) == 0
    ensures Value(ClkField(Activate(r, bpp, 133_000_000, 16_000_000).lcdcon1)) == 39
    ensures !WithinOne(39, 133_000_000, 16_000_000)
  {
    CleanActivation(r, bpp, 133_000_000, 16_000_000);
    SlowPixels();
  }

  /** The cpufreq path activates without a check and does not meet the condition: a TFT panel with
      a 10 MHz pixel clock, brought up at 80 MHz (divisor 3) and sped up to 100 MHz (divisor 4),
      ends with 7 in the field. */
  lemma CpuFreqMixes(s: Ctrl)
    requires Checked(s) && s.base == TFT && s.pixclock == 100_000 && s.rate == 80_000_000
    ensures var up := Activated(s);
            var faster := Activated(up.(rate := 100_000_000));
            && ClkField(up.regs.lcdcon1) == 3
            && Fresh(faster) == 4
            && ClkField(faster.regs.lcdcon1) == 7
  {
    assert Divisor(true, 80_000_000, 100_000) == 3;
    assert Divisor(true, 100_000_000, 100_000) == 4;
    var up := Activated(s);
    ThreeAndFour();
    CheckedAccumulates(s);
    ActivatedAccumulates(s);
    ActivatedAccumulates(up.(rate := 100_000_000));
    OrSnoc(s.clks, Fresh(s));
    OrSnoc(up.clks, Fresh(up.(rate := 100_000_000)));
  }

  lemma ThreeAndFour()
    ensures ClkField(Clkval(3)) == 3 && ClkField(Clkval(4)) == 4
  {
  }

  lemma OrSnoc(clks: seq<bv32>, c: bv32)
    ensures OrAll(clks + [c]) == OrAll(clks) | c
  {
    assert (clks + [c])[..|clks|] == clks;
  }
}
