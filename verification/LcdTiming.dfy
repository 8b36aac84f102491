/** The controller's timing registers LCDCON2, LCDCON3 and LCDCON4: sizes and margins, less one,
    OR-ed into bit fields without a check of their widths. */
module LcdTiming {
  import opened LcdControl

  datatype Timing = Timing(left: bv32, right: bv32, upper: bv32, lower: bv32, vsync: bv32, hsync: bv32)

  datatype TimingRegs = TimingRegs(lcdcon2: bv32, lcdcon3: bv32, lcdcon4: bv32)

  function Vertical(upper: bv32, yres: bv32, lower: bv32, vsync: bv32): bv32 {
    ((yres - 1) << 14) | ((upper - 1) << 24) | ((lower - 1) << 6) | (vsync - 1)
  }

  function Horizontal(right: bv32, xres: bv32, left: bv32): bv32 {
    ((right - 1) << 19) | (left - 1) | ((xres - 1) << 8)
  }

  /** `s3c2410fb_calculate_tft_lcd_regs`. */
  function TftTiming(t: Timing, xres: bv32, yres: bv32): TimingRegs {
    TimingRegs(Vertical(t.upper, yres, t.lower, t.vsync), Horizontal(t.right, xres, t.left), t.hsync - 1)
  }

  // What the controller reads in the fields of each register, and what has room there.

  predicate VerticalIs(r: bv32, upper: bv32, yres: bv32, lower: bv32, vsync: bv32) {
    && (r >> 24) + 1 == upper && ((r >> 14) & 0x3ff) + 1 == yres
    && ((r >> 6) & 0xff) + 1 == lower && (r & 0x3f) + 1 == vsync
  }

  predicate VerticalFits(upper: bv32, yres: bv32, lower: bv32, vsync: bv32) {
    1 <= upper <= 0x100 && 1 <= yres <= 0x400 && 1 <= lower <= 0x100 && 1 <= vsync <= 0x40
  }

  predicate HorizontalIs(r: bv32, right: bv32, xres: bv32, left: bv32) {
    ((r >> 19) & 0x7f) + 1 == right && ((r >> 8) & 0x7ff) + 1 == xres && (r & 0xff) + 1 == left
  }

  predicate HorizontalFits(right: bv32, xres: bv32, left: bv32) {
    1 <= right <= 0x80 && 1 <= xres <= 0x800 && 1 <= left <= 0x100
  }

  predicate SyncIs(r: bv32, hsync: bv32) {
    (r & 0xff) + 1 == hsync
  }

  predicate SyncFits(hsync: bv32) {
    1 <= hsync <= 0x100
  }

  predicate Holds(r: TimingRegs, t: Timing, xres: bv32, yres: bv32) {
    && VerticalIs(r.lcdcon2, t.upper, yres, t.lower, t.vsync)
    && HorizontalIs(r.lcdcon3, t.right, xres, t.left)
    && SyncIs(r.lcdcon4, t.hsync)
  }

  predicate Fits(t: Timing, xres: bv32, yres: bv32) {
    VerticalFits(t.upper, yres, t.lower, t.vsync) && HorizontalFits(t.right, xres, t.left) && SyncFits(t.hsync)
  }

  /** The controller sees the sizes and margins of a TFT mode if and only if each, less one, fits its
      field; one that does not spills into its neighbours. */
  lemma TimingArrivesIffFits(t: Timing, xres: bv32, yres: bv32)
    ensures Holds(TftTiming(t, xres, yres), t, xres, yres) <==> Fits(t, xres, yres)
  {
    VerticalArrives(t.upper, yres, t.lower, t.vsync);
    HorizontalArrives(t.right, xres, t.left);
    SyncArrives(t.hsync);
  }

  /** The registers hold the sizes and margins if and only if those fit. */
  predicate HoldsIffFits(r: TimingRegs, t: Timing, xres: bv32, yres: bv32) {
    Holds(r, t, xres, yres) <==> Fits(t, xres, yres)
  }

  lemma TftHoldsIffFits(t: Timing, xres: bv32, yres: bv32)
    ensures HoldsIffFits(TftTiming(t, xres, yres), t, xres, yres)
  {
    TimingArrivesIffFits(t, xres, yres);
  }

  lemma VerticalArrives(upper: bv32, yres: bv32, lower: bv32, vsync: bv32)
    ensures VerticalIs(Vertical(upper, yres, lower, vsync), upper, yres, lower, vsync)
            <==> VerticalFits(upper, yres, lower, vsync)
  {
  }

  lemma HorizontalArrives(right: bv32, xres: bv32, left: bv32)
    ensures HorizontalIs(Horizontal(right, xres, left), right, xres, left) <==> HorizontalFits(right, xres, left)
  {
  }

  lemma SyncArrives(hsync: bv32)
    ensures SyncIs(hsync - 1, hsync) <==> SyncFits(hsync)
  {
  }

  /** A vertical sync of 65 lines does not fit its six bits: it reads back as one line, and the lower
      margin as one more than it was, if that was odd. */
  lemma WideSyncSpills(upper: bv32, yres: bv32, lower: bv32)
    requires 1 <= upper <= 0x100 && 1 <= yres <= 0x400 && 1 <= lower <= 0x100 && lower & 1 == 1
    ensures VerticalIs(Vertical(upper, yres, lower, 65), upper, yres, lower + 1, 1)
    ensures !VerticalIs(Vertical(upper, yres, lower, 65), upper, yres, lower, 65)
  {
  }

  const STN4: bv32 := 0x20

  /** A 4-bit STN panel, as the driver tests for it. */
  predicate SeemsStn4(lcdcon1: bv32) {
    lcdcon1 & !TFT == STN4
  }

  /** A length in units of sixteen clocks, less one, in two bits. */
  function Capped(x: bv32): bv32 {
    if (x >> 4) - 1 > 3 then 3 else (x >> 4) - 1
  }

  /** The horizontal size of an STN panel. */
  function StnSize(lcdcon1: bv32, bpp: nat, xres: bv32): bv32 {
    var quarter := xres >> 2;
    var halved := if SeemsStn4(lcdcon1) then quarter else quarter >> 1;
    if bpp == 8 || bpp == 12 then 3 * halved else halved
  }

  function StnHorizontal(delay: bv32, blank: bv32, size: bv32): bv32 {
    (delay << 19) | blank | ((size - 1) << 8)
  }

  /** `s3c2410fb_calculate_stn_lcd_regs`. */
  function StnTiming(lcdcon1: bv32, bpp: nat, t: Timing, xres: bv32, yres: bv32): TimingRegs {
    TimingRegs((yres - 1) << 14, StnHorizontal(Capped(t.left), t.right >> 3, StnSize(lcdcon1, bpp, xres)), Capped(t.hsync))
  }

  /** An eighth of the width, or three eighths in colour. */
  lemma StnSizeIs(lcdcon1: bv32, bpp: nat, xres: bv32)
    ensures StnSize(lcdcon1, bpp, xres) == if bpp == 8 || bpp == 12 then 3 * (xres >> 3) else xres >> 3
  {
    Stn4IsNeverSeen(lcdcon1);
    assert (xres >> 2) >> 1 == xres >> 3;
  }

  lemma CappedIs(x: bv32)
    ensures Capped(x) == if 16 <= x < 64 then (x >> 4) - 1 else 3
    ensures Capped(x) <= 3
  {
  }

  predicate StnHorizontalIs(r: bv32, delay: bv32, blank: bv32, size: bv32) {
    ((r >> 8) & 0x7ff) + 1 == size && r & 0xff == blank && (r >> 19) & 3 == delay
  }

  /** The controller of an STN panel reads delay, blanking and size back if and only if they fit. */
  lemma StnHorizontalArrives(delay: bv32, blank: bv32, size: bv32)
    ensures delay <= 3 ==> (StnHorizontalIs(StnHorizontal(delay, blank, size), delay, blank, size)
                            <==> blank <= 0xff && 1 <= size <= 0x800)
  {
  }

  lemma StnLines(yres: bv32)
    ensures ((((yres - 1) << 14) >> 14) & 0x3ff) + 1 == yres <==> 1 <= yres <= 0x400
  {
  }

  /** Which of them comes from where. */
  lemma StnTimingParts(lcdcon1: bv32, bpp: nat, t: Timing, xres: bv32, yres: bv32)
    ensures var r := StnTiming(lcdcon1, bpp, t, xres, yres);
            && r.lcdcon2 == (yres - 1) << 14
            && r.lcdcon3 == StnHorizontal(Capped(t.left), t.right >> 3, StnSize(lcdcon1, bpp, xres))
            && r.lcdcon4 == Capped(t.hsync)
  {
  }

  /** The test masks out the very bits it compares, so no panel ever passes it: the scan width of a
      4-bit STN panel is halved like that of any other. */
  lemma Stn4IsNeverSeen(lcdcon1: bv32)
    ensures !SeemsStn4(lcdcon1)
  {
  }
}
