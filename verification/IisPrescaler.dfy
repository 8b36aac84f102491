/** Choosing the I2S prescaler: a search over 32 divisors for the rate nearest to the one asked for. */
module IisPrescaler {
  import opened Arith
  import opened Words

  const DIVISORS := 32
  /** The error the search starts from; only a smaller one is ever taken. */
  const WORST := 0xffff

  datatype SampleFormat = S16LE | S8 | OtherFormat

  function Abs(a: nat, b: nat): nat {
    if a > b then a - b else b - a
  }

  /** The rate prescaler value `i` gives for master clock `clk`. */
  function Rate(clk: nat, i: nat): nat {
    clk / 384 / (i + 1)
  }

  function Error(clk: nat, fs: nat, i: nat): nat {
    Abs(Rate(clk, i), fs)
  }

  /** How far that rate is from the one asked for, above or below. */
  function Offset(clk: nat, fs: nat, i: nat): int {
    clk / (384 * (i + 1)) - fs
  }

  predicate NoFarther(c: int, d: int) {
    -d <= c <= d || d <= c <= -d
  }

  function Errors(clk: nat, fs: nat): (es: seq<nat>)
    ensures |es| == DIVISORS
  {
    seq(DIVISORS, i requires 0 <= i < DIVISORS => Error(clk, fs, i))
  }

  /** The first position of the least value. */
  predicate FirstLeast(es: seq<nat>, pre: nat) {
    && pre < |es|
    && (forall j :: 0 <= j < |es| ==> es[pre] <= es[j])
    && (forall j :: 0 <= j < pre ==> es[pre] < es[j])
  }

  /** What the search returns: the first least error if any error is acceptable, else 0. */
  predicate Chosen(es: seq<nat>, pre: nat) {
    if exists j :: 0 <= j < |es| && es[j] < WORST then FirstLeast(es, pre) else pre == 0
  }

  /** The search so far: `min` is the least of the first `n` errors and WORST. */
  predicate Tracks(es: seq<nat>, n: nat, min: nat, pre: nat)
    requires n <= |es|
  {
    if min == WORST then pre == 0 && forall j :: 0 <= j < n ==> es[j] >= WORST
    else min < WORST && FirstLeast(es[..n], pre) && min == es[pre]
  }

  lemma TracksStep(es: seq<nat>, n: nat, min: nat, pre: nat)
    requires n < |es| && Tracks(es, n, min, pre)
    ensures if es[n] < min then Tracks(es, n + 1, es[n], n) else Tracks(es, n + 1, min, pre)
  {
    assert forall j :: 0 <= j < n ==> es[..n + 1][j] == es[..n][j];
  }

  class IisRegs {
    var iiscon: nat
    var iismod: nat
    var iispsr: nat
    var iisfcon: nat

    constructor () {
      iiscon, iismod, iispsr, iisfcon := 0, 0, 0, 0;
    }

    /** No divisor gives a rate nearer to `fs`, none before the one found gives one as near, and where
        all are off by 0xffff or more it is 0. */
    method Search(clk: u32, fs: u32) returns (pre: nat)
      ensures pre < 32 && Chosen(Errors(clk, fs), pre)
      ensures forall j :: 0 <= j < 32 && -0xffff < Offset(clk, fs, j) < 0xffff ==>
                NoFarther(Offset(clk, fs, pre), Offset(clk, fs, j))
                && (j < pre ==> !NoFarther(Offset(clk, fs, j), Offset(clk, fs, pre)))
      ensures pre > 0 ==> -0xffff < Offset(clk, fs, pre) < 0xffff
    {
      ghost var es := Errors(clk, fs);
      var min: nat := WORST;
      pre := 0;
      for i := 0 to DIVISORS
        invariant pre < DIVISORS && Tracks(es, i, min, pre)
      {
        TracksStep(es, i, min, pre);
        var tmp := clk / 384 / (i + 1);
        assert Abs(tmp, fs) == es[i];
        if Abs(tmp, fs) < min {
          min := Abs(tmp, fs);
          pre := i;
        }
      }
      assert es[..DIVISORS] == es;
      EveryNearest(clk, fs, pre);
    }

    /** Both five-bit prescaler fields get the value found. An unknown format changes nothing here. */
    method HwParams(format: SampleFormat, clk: u32, fs: u32) returns (ret: int, ghost pre: nat)
      modifies this
      ensures ret == if format.OtherFormat? then -22 else 0
      ensures format.OtherFormat? ==> unchanged(this)
      ensures !format.OtherFormat? ==>
                && pre < 32 && Chosen(Errors(clk, fs), pre)
                && iispsr == 32 * pre + pre
                && iismod == (if format.S16LE? then 0x8d else 0x85)
                && iisfcon == 0xa000 && iiscon == 0x22
    {
      match format {
        case S16LE => iismod := 0x8d;
        case S8 => iismod := 0x85;
        case OtherFormat => return -22, 0;
      }
      var found := Search(clk, fs);
      iispsr := Prescalers(found);
      iisfcon := 0xa000;
      iiscon := 0x22;
      return 0, found;
    }
  }

  /** `(pre << 5) | pre`, for a value below 32. */
  function Prescalers(pre: nat): nat {
    pre * 32 + pre
  }

  lemma BothPrescalers(pre: nat)
    requires pre < DIVISORS
    ensures Prescalers(pre) % 32 == pre && Prescalers(pre) / 32 == pre
  {
    UniqueRemainder(Prescalers(pre), pre, 32, pre);
  }

  // ----- how good the choice is -----

  /** The error is the distance, either way, of the rate the hardware divides down to. */
  lemma ErrorIsDistance(clk: nat, fs: nat, i: nat, e: int)
    ensures Error(clk, fs, i) <= e <==> fs - e <= clk / (384 * (i + 1)) <= fs + e
    ensures Error(clk, fs, i) <= e <==> -e <= Offset(clk, fs, i) <= e
  {
    TwoDivisions(clk, i);
  }

  /** Whatever error another divisor keeps to, the choice keeps to it too; and an earlier one is worse. */
  lemma ChoiceIsNearest(clk: nat, fs: nat, pre: nat, j: nat, e: nat)
    requires pre < 32 && Chosen(Errors(clk, fs), pre)
    requires j < 32 && e < 0xffff && fs - e <= clk / (384 * (j + 1)) <= fs + e
    ensures fs - e <= clk / (384 * (pre + 1)) <= fs + e
    ensures j < pre ==> fs - e < clk / (384 * (pre + 1)) < fs + e
  {
    ErrorIsDistance(clk, fs, j, e);
    LeastError(clk, fs, pre, j);
    ErrorIsDistance(clk, fs, pre, e);
    ErrorIsDistance(clk, fs, pre, e - 1);
  }

  lemma LeastError(clk: nat, fs: nat, pre: nat, j: nat)
    requires pre < 32 && Chosen(Errors(clk, fs), pre) && j < 32 && Error(clk, fs, j) < WORST
    ensures Error(clk, fs, pre) <= Error(clk, fs, j)
    ensures j < pre ==> Error(clk, fs, pre) < Error(clk, fs, j)
  {
    assert Errors(clk, fs)[j] == Error(clk, fs, j) && Errors(clk, fs)[pre] == Error(clk, fs, pre);
  }

  lemma OffsetsOrdered(clk: nat, fs: nat, pre: nat, j: nat)
    requires pre < 32 && Chosen(Errors(clk, fs), pre) && j < 32 && -0xffff < Offset(clk, fs, j) < 0xffff
    ensures NoFarther(Offset(clk, fs, pre), Offset(clk, fs, j))
    ensures j < pre ==> !NoFarther(Offset(clk, fs, j), Offset(clk, fs, pre))
  {
    ErrorIsDistance(clk, fs, j, 0xfffe);
    LeastError(clk, fs, pre, j);
    ErrorsAgainstOffsets(clk, fs, pre, j);
    ErrorsAgainstOffsets(clk, fs, j, pre);
  }

  lemma ErrorsAgainstOffsets(clk: nat, fs: nat, i: nat, j: nat)
    ensures Error(clk, fs, i) <= Error(clk, fs, j) <==> NoFarther(Offset(clk, fs, i), Offset(clk, fs, j))
  {
    TwoDivisions(clk, i);
    TwoDivisions(clk, j);
    DistancesCompare(Rate(clk, i), Rate(clk, j), fs);
  }

  lemma DistancesCompare(x: nat, y: nat, fs: nat)
    ensures Abs(x, fs) <= Abs(y, fs) <==> NoFarther(x - fs, y - fs)
  {
  }

  lemma FarMeansFirst(clk: nat, fs: nat, pre: nat)
    requires 0 < pre < 32 && Chosen(Errors(clk, fs), pre)
    ensures -0xffff < Offset(clk, fs, pre) < 0xffff
  {
    var es := Errors(clk, fs);
    var j :| 0 <= j < |es| && es[j] < WORST;
    assert es[pre] <= es[j] && es[pre] == Error(clk, fs, pre);
    ErrorIsDistance(clk, fs, pre, 0xfffe);
  }

  lemma EveryNearest(clk: nat, fs: nat, pre: nat)
    requires pre < 32 && Chosen(Errors(clk, fs), pre)
    ensures forall j :: 0 <= j < 32 && -0xffff < Offset(clk, fs, j) < 0xffff ==>
              NoFarther(Offset(clk, fs, pre), Offset(clk, fs, j))
              && (j < pre ==> !NoFarther(Offset(clk, fs, j), Offset(clk, fs, pre)))
    ensures pre > 0 ==> -0xffff < Offset(clk, fs, pre) < 0xffff
  {
    forall j | 0 <= j < 32 && -0xffff < Offset(clk, fs, j) < 0xffff
      ensures NoFarther(Offset(clk, fs, pre), Offset(clk, fs, j))
      ensures j < pre ==> !NoFarther(Offset(clk, fs, j), Offset(clk, fs, pre))
    {
      OffsetsOrdered(clk, fs, pre, j);
    }
    if pre > 0 {
      FarMeansFirst(clk, fs, pre);
    }
  }

  /** Slower with every step. */
  lemma RateFalls(clk: nat, i: nat, j: nat)
    requires i <= j
    ensures Rate(clk, j) <= Rate(clk, i)
  {
    var f := clk / 384;
    QuotientBounds(f, j + 1);
    Monotone(Rate(clk, j), Rate(clk, j), i + 1, j + 1);
    QuotientAtLeast(f, i + 1, Rate(clk, j));
  }

  /** Dividing by 384 and then by n is dividing by 384 n once. */
  lemma TwoDivisions(clk: nat, i: nat)
    ensures Rate(clk, i) == clk / (384 * (i + 1))
  {
    DivideTwice(clk, 384, i + 1);
  }

  /** The two divisors around the exact one, brought into range. */
  function Below(clk: nat, fs: nat): nat
    requires fs > 0
  {
    var q := clk / 384 / fs;
    if q == 0 then 0 else if q > DIVISORS then DIVISORS - 1 else q - 1
  }

  function Above(clk: nat, fs: nat): nat
    requires fs > 0
  {
    var q := clk / 384 / fs;
    if q >= DIVISORS then DIVISORS - 1 else q
  }

  /** Up to the exact divisor the rate is no slower than asked for, from there on no faster. */
  lemma RateAround(clk: nat, fs: nat, j: nat)
    requires fs > 0
    ensures j < clk / 384 / fs ==> Rate(clk, j) >= fs
    ensures j >= clk / 384 / fs ==> Rate(clk, j) <= fs
  {
    var f := clk / 384;
    var q := f / fs;
    QuotientBounds(f, fs);
    if j < q {
      Monotone(fs, fs, j + 1, q);
      QuotientAtLeast(f, j + 1, fs);
    } else {
      QuotientBounds(f, j + 1);
      Monotone(fs, fs, q + 1, j + 1);
      NotAbove(f, j + 1, fs);
    }
  }

  lemma NotAbove(f: nat, d: nat, fs: nat)
    requires d > 0 && f < fs * d
    ensures f / d <= fs
  {
    QuotientBounds(f, d);
    if f / d > fs {
      Monotone(fs, f / d, d, d);
    }
  }

  /** For every clock and rate, no divisor beats both neighbours of the exact one, so the
      minimum over all 32 is attained at one of the two. */
  lemma NeighboursAreBest(clk: nat, fs: nat, j: nat)
    requires fs > 0 && j < DIVISORS
    ensures Error(clk, fs, Below(clk, fs)) <= Error(clk, fs, j) || Error(clk, fs, Above(clk, fs)) <= Error(clk, fs, j)
  {
    RateAround(clk, fs, j);
    RateAround(clk, fs, Below(clk, fs));
    RateAround(clk, fs, Above(clk, fs));
    if j < clk / 384 / fs {
      RateFalls(clk, j, Below(clk, fs));
    } else {
      RateFalls(clk, Above(clk, fs), j);
    }
  }

  /** Away from the ends of the divisor range the better neighbour is within about fs / 2q. */
  lemma NeighbourBound(clk: nat, fs: nat, e: nat)
    requires fs > 0 && 1 <= clk / 384 / fs
    requires e <= Error(clk, fs, clk / 384 / fs - 1) && e <= Error(clk, fs, clk / 384 / fs)
    ensures 2 * (clk / 384 / fs) * e < fs + clk / 384 / fs
  {
    var f := clk / 384;
    var q := f / fs;
    RateAround(clk, fs, q - 1);
    RateAround(clk, fs, q);
    var v, w := f / q, f / (q + 1);
    QuotientBounds(f, q);
    QuotientBounds(f, q + 1);
    QuotientBounds(f, fs);
    FasterSide(f, fs, q, v, e);
    SlowerSide(f, fs, q, w, e);
    SidesMeet(fs, q, e, f - q * fs);
  }

  lemma SidesMeet(fs: nat, q: nat, e: nat, r: int)
    requires q > 0 && fs > 0 && q * e <= r && (q + 1) * (e - 1) < fs - r
    ensures 2 * q * e < fs + q
  {
    assert (q + 1) * (e - 1) == q * e + e - q - 1;
    assert 2 * q * e == q * e + q * e;
    if e == 0 {
      assert q * e == 0;
    }
  }

  lemma FasterSide(f: nat, fs: nat, q: nat, v: nat, e: nat)
    requires v * q <= f && v >= fs && e <= v - fs
    ensures q * e <= f - q * fs
  {
    Monotone(q, q, e, v - fs);
    assert q * (v - fs) == v * q - q * fs;
  }

  lemma SlowerSide(f: nat, fs: nat, q: nat, w: nat, e: nat)
    requires f < (w + 1) * (q + 1) && w <= fs && e <= fs - w
    ensures (q + 1) * (e - 1) < fs - (f - q * fs)
  {
    assert (q + 1) * (e - 1) <= (q + 1) * (fs - w - 1);
    assert (q + 1) * (fs - w - 1) == (q + 1) * fs - (w + 1) * (q + 1);
    assert (q + 1) * fs == q * fs + fs;
  }

  lemma ErrorIsAcceptable(q: nat, e: nat, fs: nat)
    requires 1 <= q < DIVISORS && fs <= 96000 && 2 * q * e < fs + q
    ensures e < WORST
  {
    Monotone(2, 2 * q, e, e);
  }

  /** With an acceptable error somewhere, the choice is the first best. */
  lemma ChoiceIsBest(es: seq<nat>, pre: nat, j: nat)
    requires Chosen(es, pre) && j < |es| && es[j] < WORST
    ensures FirstLeast(es, pre)
  {
  }

  /** So is the search's choice: within the range of divisors and for the rates the interface
      offers, the first best one is taken, with an error of about fs / 2q at most. */
  lemma ChoiceBound(clk: u32, fs: u32, pre: nat)
    requires 0 < fs <= 96000 && 1 <= clk / 384 / fs < DIVISORS
    requires Chosen(Errors(clk, fs), pre)
    ensures FirstLeast(Errors(clk, fs), pre)
    ensures pre < DIVISORS && 2 * (clk / 384 / fs) * Error(clk, fs, pre) < fs + clk / 384 / fs
    ensures var q := clk / 384 / fs;
            -(fs + q) < 2 * q * (clk / (384 * (pre + 1)) - fs) < fs + q
  {
    var q := clk / 384 / fs;
    var near := if Error(clk, fs, q - 1) <= Error(clk, fs, q) then q - 1 else q;
    NeighbourBound(clk, fs, Error(clk, fs, near));
    ErrorIsAcceptable(q, Error(clk, fs, near), fs);
    ChoiceIsBest(Errors(clk, fs), pre, near);
    assert Errors(clk, fs)[pre] == Error(clk, fs, pre);
    assert Errors(clk, fs)[q - 1] == Error(clk, fs, q - 1) && Errors(clk, fs)[q] == Error(clk, fs, q);
    NeighbourBound(clk, fs, Error(clk, fs, pre));
    ErrorIsDistance(clk, fs, pre, Error(clk, fs, pre));
    BothSides(2 * q, clk / (384 * (pre + 1)) - fs, Error(clk, fs, pre));
  }

  lemma BothSides(q: nat, d: int, e: nat)
    requires 0 - e <= d <= e
    ensures 0 - q * e <= q * d <= q * e
  {
    assert q * (e - d) >= 0 && q * (e + d) >= 0;
    assert q * (e - d) == q * e - q * d && q * (e + d) == q * e + q * d;
  }
}
