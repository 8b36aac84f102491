/** From a pixel clock in picoseconds to the controller's clock divisor. */
module PixelClock {
  import opened Arith
  import opened Words

  const PICO := 1_000_000_000_000
  const TWO_12 := 0x1000
  const FIVE_12 := 625 * 625 * 625

  /** `s3c2410fb_calc_pixclk`: the product is shifted by 12, divided by 5^12 and returned as an
      unsigned int. */
  function CalcPixclk(clk: u32, pixclk: u32): u32 {
    clk * pixclk / TWO_12 / FIVE_12 % WORD
  }

  /** DIV_ROUND_UP by two, less one, not below zero. */
  function TftClkval(div: u32): u32 {
    if (div + 1) / 2 - 1 < 0 then 0 else (div + 1) / 2 - 1
  }

  /** DIV_ROUND_UP by two, at least two. */
  function StnClkval(div: u32): u32 {
    if (div + 1) / 2 < 2 then 2 else (div + 1) / 2
  }

  /** The shift and the small division lose nothing: the result is the exact quotient, and it
      is never truncated by the return type. */
  lemma CalcIsExact(clk: u32, pixclk: u32)
    ensures CalcPixclk(clk, pixclk) == clk * pixclk / 1_000_000_000_000
  {
    DivideTwice(clk * pixclk, TWO_12, FIVE_12);
    Monotone(clk, 0xffff_ffff, pixclk, 0xffff_ffff);
    QuotientBounds(clk * pixclk, PICO);
  }

  /** A TFT panel's divisor, 2(CLKVAL + 1), is off by at most one unit of the true divisor
      clk * pixclk / 10^12. */
  predicate WithinOne(clkval: nat, clk: u32, pixclk: u32) {
    -PICO <= 2 * (clkval + 1) * PICO - clk * pixclk <= PICO
  }

  lemma FieldOfDivisor(div: u32)
    ensures var programmed := 2 * (TftClkval(div) % 1024 + 1);
            if div == 0 then programmed == 2
            else if div <= 2048 then div <= programmed <= div + 1
            else programmed <= div - 2047
  {
  }

  lemma StnFieldOfDivisor(div: u32)
    ensures var programmed := 2 * (StnClkval(div) % 1024);
            if div <= 2 then programmed == 4
            else if div <= 2046 then div <= programmed <= div + 1
            else programmed <= div - 2047
  {
  }

  /** An STN panel's divisor is 2 CLKVAL, and good exactly when the true one is from three to below 2047. */
  lemma StnFieldRounding(clk: u32, pixclk: u32)
    ensures -PICO <= 2 * (StnClkval(CalcPixclk(clk, pixclk)) % 1024) * PICO - clk * pixclk <= PICO
            <==> 3 * PICO <= clk * pixclk < 2047 * PICO
  {
    CalcIsExact(clk, pixclk);
    var div := CalcPixclk(clk, pixclk);
    QuotientBounds(clk * pixclk, PICO);
    assert div * PICO <= clk * pixclk < (div + 1) * PICO;
    StnFieldOfDivisor(div);
  }

  /** What ten bits hold of the CLKVAL computed is good exactly when the true divisor is at least one
      and less than 2049. */
  lemma FieldRounding(clk: u32, pixclk: u32)
    ensures WithinOne(TftClkval(CalcPixclk(clk, pixclk)) % 1024, clk, pixclk) <==> PICO <= clk * pixclk < 2049 * PICO
  {
    CalcIsExact(clk, pixclk);
    var div := CalcPixclk(clk, pixclk);
    QuotientBounds(clk * pixclk, PICO);
    assert div * PICO <= clk * pixclk < (div + 1) * PICO;
    FieldOfDivisor(div);
  }

  lemma SlowPixels()
    ensures TftClkval(CalcPixclk(133_000_000, 16_000_000)) % 1024 == 39
    ensures !WithinOne(39, 133_000_000, 16_000_000)
  {
  }
}
