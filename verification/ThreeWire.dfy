/** The write-only 3-wire link to the WM8976: CSB, clock and data, sixteen bits MSB first. */
module ThreeWire {
  import opened Gpio
  import opened Words

  // ----- the far end of the wire -----

  /** A receiver that shifts on every rising clock edge and, on a rising CSB edge, takes
      the last sixteen bits as a word. `shifted` is everything that ever came in. */
  datatype Receiver = Receiver(lines: Lines, shifted: nat, words: seq<u16>)

  function Shift(reg: nat, bit: bool): nat {
    2 * reg + if bit then 1 else 0
  }

  function LastSixteen(shifted: nat): u16 {
    shifted % 0x1_0000
  }

  function Sample(r: Receiver, l: Lines): Receiver {
    if !r.lines.sel && l.sel then r.(lines := l, words := r.words + [LastSixteen(r.shifted)])
    else if !r.lines.clk && l.clk then r.(lines := l, shifted := Shift(r.shifted, l.dat))
    else r.(lines := l)
  }

  function Listen(r: Receiver, t: seq<Lines>): Receiver
    decreases |t|
  {
    if t == [] then r else Listen(Sample(r, t[0]), t[1..])
  }

  // ----- what the driver does to the wires -----

  function TopBit(word: u16): bool {
    word >= 0x8000
  }

  /** A left shift in an unsigned short. */
  function ShiftOut(word: u16): u16 {
    word * 2 % 0x1_0000
  }

  /** The wires while the top `n` bits of `word` go out, starting from `l`. */
  function BitsTrace(l: Lines, word: u16, n: nat): seq<Lines>
    decreases n, word
  {
    if n == 0 then [] else
      BitTrace(l, TopBit(word)) + BitsTrace(l.(clk := true, dat := TopBit(word)), ShiftOut(word), n - 1)
  }

  function AfterBits(l: Lines, word: u16, n: nat): Lines
    decreases n, word
  {
    if n == 0 then l else AfterBits(l.(clk := true, dat := TopBit(word)), ShiftOut(word), n - 1)
  }

  /** CSB, data and clock go high in this order. */
  function Raised(l: Lines): seq<Lines> {
    [l.(sel := true), l.(sel := true, dat := true), ALL_HIGH]
  }

  function WordTrace(l: Lines, word: u16): seq<Lines> {
    var done := AfterBits(ALL_HIGH, word, 16);
    Raised(l) + BitsTrace(ALL_HIGH, word, 16) + [done.(sel := false)] + Raised(done.(sel := false))
  }

  function WordsTrace(l: Lines, ws: seq<u16>): seq<Lines>
    decreases |ws|
  {
    if ws == [] then [] else
      WordsTrace(l, ws[..|ws| - 1]) + WordTrace(if |ws| == 1 then l else ALL_HIGH, ws[|ws| - 1])
  }

  // ----- decoding -----

  lemma {:induction false} ListenConcat(r: Receiver, a: seq<Lines>, b: seq<Lines>)
    ensures Listen(r, a + b) == Listen(Listen(r, a), b)
    decreases |a|
  {
    if a == [] {
      assert a + b == b;
    } else {
      assert (a + b)[1..] == a[1..] + b;
      ListenConcat(Sample(r, a[0]), a[1..], b);
    }
  }

  lemma ListenOne(r: Receiver, l: Lines)
    ensures Listen(r, [l]) == Sample(r, l)
  {
    assert Listen(Sample(r, l), []) == Sample(r, l);
  }

  lemma ListenThree(r: Receiver, a: Lines, b: Lines, c: Lines)
    ensures Listen(r, [a, b, c]) == Sample(Sample(Sample(r, a), b), c)
  {
    ListenOne(r, a);
    ListenOne(Sample(r, a), b);
    ListenOne(Sample(Sample(r, a), b), c);
    ListenConcat(Sample(r, a), [b], [c]);
    ListenConcat(r, [a], [b] + [c]);
    assert [a, b, c] == [a] + ([b] + [c]);
  }

  /** What has been shifted in after the top `n` bits of `word` came in. */
  function ShiftIn(reg: nat, word: u16, n: nat): nat
    decreases n, word
  {
    if n == 0 then reg else ShiftIn(Shift(reg, TopBit(word)), ShiftOut(word), n - 1)
  }

  function Pow2(n: nat): nat
    ensures Pow2(n) > 0
  {
    if n == 0 then 1 else 2 * Pow2(n - 1)
  }

  /** The top `n` bits of the word follow what was there; `rest` is what the word has left. */
  lemma {:induction false} TopBitsFollow(reg: nat, word: u16, n: nat) returns (taken: nat, rest: u16)
    ensures Pow2(n) * word == 0x1_0000 * taken + rest
    ensures ShiftIn(reg, word, n) == Pow2(n) * reg + taken
    decreases n
  {
    if n == 0 {
      taken, rest := 0, word;
    } else {
      var p, bit := Pow2(n - 1), TopBit(word);
      var taken';
      taken', rest := TopBitsFollow(Shift(reg, bit), ShiftOut(word), n - 1);
      taken := (if bit then p else 0) + taken';
      OneMoreBit(p, word, ShiftOut(word), bit, 0x1_0000, 0x1_0000 * taken' + rest);
      OneMoreBit(p, reg, 2 * reg, false, 1, p * (2 * reg));
      ShiftedTimes(p, reg, bit);
    }
  }

  lemma OneMoreBit(p: nat, word: int, left: int, bit: bool, weight: int, scaled: int)
    requires 2 * word == left + (if bit then weight else 0)
    requires p * left == scaled
    ensures (2 * p) * word == scaled + (if bit then weight * p else 0)
  {
    assert (2 * p) * word == p * (2 * word);
    if bit {
      assert p * (left + weight) == p * left + p * weight;
    }
  }

  lemma ShiftedTimes(p: nat, reg: nat, bit: bool)
    ensures p * Shift(reg, bit) == p * (2 * reg) + (if bit then p else 0)
  {
    if bit {
      assert p * (2 * reg + 1) == p * (2 * reg) + p * 1;
    }
  }

  lemma Pow16()
    ensures Pow2(16) == 0x1_0000
  {
    assert Pow2(4) == 16;
    assert Pow2(8) == 256;
    assert Pow2(12) == 4096;
  }

  /** Sixteen shifts leave nothing of what was there before. */
  lemma SixteenShiftsReplaceAll(reg: nat, word: u16)
    ensures LastSixteen(ShiftIn(reg, word, 16)) == word
  {
    Pow16();
    FullWordFollows(reg, word, 16);
  }

  lemma FullWordFollows(reg: nat, word: u16, n: nat)
    requires Pow2(n) == 0x1_0000
    ensures LastSixteen(ShiftIn(reg, word, n)) == word
  {
    var taken, rest := TopBitsFollow(reg, word, n);
    assert taken == word;
    assert ShiftIn(reg, word, n) == 0x1_0000 * reg + word;
  }

  lemma {:induction false} BitsArrive(r: Receiver, word: u16, n: nat)
    requires r.lines.clk
    ensures Listen(r, BitsTrace(r.lines, word, n)) ==
            Receiver(AfterBits(r.lines, word, n), ShiftIn(r.shifted, word, n), r.words)
    decreases n
  {
    if n > 0 {
      var l := r.lines;
      var bit := TopBit(word);
      var r1 := Receiver(l.(clk := true, dat := bit), Shift(r.shifted, bit), r.words);
      ListenThree(r, l.(clk := false), l.(clk := false, dat := bit), l.(clk := true, dat := bit));
      ListenConcat(r, BitTrace(l, bit), BitsTrace(r1.lines, ShiftOut(word), n - 1));
      BitsArrive(r1, ShiftOut(word), n - 1);
    }
  }

  lemma {:induction false} AfterBitsLines(l: Lines, word: u16, n: nat)
    requires l.clk
    ensures AfterBits(l, word, n).sel == l.sel && AfterBits(l, word, n).clk
    decreases n
  {
    if n > 0 {
      AfterBitsLines(l.(clk := true, dat := TopBit(word)), ShiftOut(word), n - 1);
    }
  }

  /** A CSB found low is raised before the first bit, and the chip takes whatever it had shifted. */
  function StaleWords(r: Receiver): seq<u16> {
    if r.lines.sel then [] else [LastSixteen(r.shifted)]
  }

  lemma RaisedArrives(r: Receiver)
    ensures var up := Listen(r, Raised(r.lines));
            up.lines == ALL_HIGH && up.words == r.words + StaleWords(r)
            && (r.lines.clk ==> up.shifted == r.shifted)
  {
    var l1 := r.lines.(sel := true);
    ListenThree(r, l1, l1.(dat := true), ALL_HIGH);
    assert r.words + [] == r.words;
  }

  /** From any pins and any shift register, one register write latches exactly its own word,
      after the stale one if CSB was low. */
  lemma WordArrives(r: Receiver, word: u16)
    ensures var heard := Listen(r, WordTrace(r.lines, word));
            heard.lines == ALL_HIGH && heard.words == r.words + StaleWords(r) + [word]
  {
    var ready := Listen(r, Raised(r.lines));
    RaisedArrives(r);
    BitsArrive(ready, word, 16);
    SixteenShiftsReplaceAll(ready.shifted, word);
    AfterBitsLines(ALL_HIGH, word, 16);
    var done := Listen(ready, BitsTrace(ALL_HIGH, word, 16));
    var selected := Sample(done, done.lines.(sel := false));
    ListenOne(done, selected.lines);
    RaisedArrives(selected);
    var t1 := BitsTrace(ALL_HIGH, word, 16);
    ListenConcat(r, Raised(r.lines) + t1 + [selected.lines], Raised(selected.lines));
    ListenConcat(r, Raised(r.lines) + t1, [selected.lines]);
    ListenConcat(r, Raised(r.lines), t1);
  }

  /** Any sequence of writes is latched as exactly its sequence of words. */
  lemma {:induction false} WordsArrive(r: Receiver, ws: seq<u16>)
    ensures var heard := Listen(r, WordsTrace(r.lines, ws));
            heard.words == r.words + (if ws == [] then [] else StaleWords(r)) + ws
            && (ws != [] ==> heard.lines == ALL_HIGH)
    decreases |ws|
  {
    if ws == [] {
      assert r.words + [] + ws == r.words;
    } else {
      var init, last := ws[..|ws| - 1], ws[|ws| - 1];
      WordsArrive(r, init);
      var r1 := Listen(r, WordsTrace(r.lines, init));
      WordArrives(r1, last);
      ListenConcat(r, WordsTrace(r.lines, init), WordTrace(r1.lines, last));
      LastAfter(r.words, StaleWords(r), ws);
      if init == [] {
        assert r1 == r;
      } else {
        assert r1.words + [] == r1.words;
      }
    }
  }

  lemma LastAfter(a: seq<u16>, b: seq<u16>, ws: seq<u16>)
    requires ws != []
    ensures a + b + ws[..|ws| - 1] + [ws[|ws| - 1]] == a + b + ws
    ensures |ws| == 1 ==> a + b + [ws[0]] == a + b + ws
  {
  }

  /** A chip select left low before the first write is the only thing that can spoil it. */
  lemma DecodesExactlyIfIdle(r: Receiver, ws: seq<u16>)
    requires ws != []
    ensures Listen(r, WordsTrace(r.lines, ws)).words == r.words + ws <==> r.lines.sel
  {
    WordsArrive(r, ws);
    assert r.words + [] == r.words;
    if !r.lines.sel {
      assert |r.words + StaleWords(r) + ws| == |r.words + ws| + 1;
    }
  }

  /** With the chip select left low, what happened to be shifted in is taken for a word. */
  lemma LowSelectIsHeard(lines: Lines, shifted: u16, word: u16)
    requires !lines.sel
    ensures Listen(Receiver(lines, shifted, []), WordsTrace(lines, [word])).words == [shifted, word]
  {
    WordsArrive(Receiver(lines, shifted, []), [word]);
  }

  // ----- the driver -----

  /** The bit-banging half of the driver, over a GPIO port nobody else drives. */
  class ThreeWireMaster {
    const port: GpioBank
    ghost const start: Lines
    ghost const before: seq<Lines>
    /** Every word clocked out so far. */
    ghost var sent: seq<u16>

    ghost predicate Valid()
      reads this, port
    {
      && port.trace == before + WordsTrace(start, sent)
      && Pins(port.gpbdat) == (if sent == [] then start else ALL_HIGH)
    }

    constructor (port: GpioBank)
      ensures Valid() && this.port == port && sent == []
      ensures start == Pins(port.gpbdat) && before == port.trace
    {
      this.port := port;
      start, before, sent := Pins(port.gpbdat), port.trace, [];
    }

    method RaiseAll()
      modifies port
      ensures port.trace == old(port.trace) + Raised(old(Pins(port.gpbdat)))
      ensures Pins(port.gpbdat) == ALL_HIGH
      ensures OtherPins(port.gpbdat) == old(OtherPins(port.gpbdat))
    {
      port.SetSel(true);
      port.SetDat(true);
      port.SetClk(true);
    }

    method SendBits(word: u16)
      modifies port
      ensures port.trace == old(port.trace) + BitsTrace(old(Pins(port.gpbdat)), word, 16)
      ensures Pins(port.gpbdat) == AfterBits(old(Pins(port.gpbdat)), word, 16)
      ensures OtherPins(port.gpbdat) == old(OtherPins(port.gpbdat))
    {
      var val := word;
      ghost var goal := port.trace + BitsTrace(Pins(port.gpbdat), word, 16);
      ghost var end := AfterBits(Pins(port.gpbdat), word, 16);
      ghost var others := OtherPins(port.gpbdat);
      ghost var n := 16;
      for i := 0 to 16
        invariant n == 16 - i
        invariant port.trace + BitsTrace(Pins(port.gpbdat), val, n) == goal
        invariant AfterBits(Pins(port.gpbdat), val, n) == end
        invariant OtherPins(port.gpbdat) == others
      {
        SendingOn(port.trace, Pins(port.gpbdat), val, n);
        port.SendBit(TopBit(val));
        val, n := ShiftOut(val), n - 1;
      }
    }

    method SendWord(word: u16)
      modifies port
      ensures port.trace == old(port.trace) + WordTrace(old(Pins(port.gpbdat)), word)
      ensures Pins(port.gpbdat) == ALL_HIGH
      ensures OtherPins(port.gpbdat) == old(OtherPins(port.gpbdat))
    {
      ghost var t0, l0 := port.trace, Pins(port.gpbdat);
      RaiseAll();

      SendBits(word);

      port.SetSel(false);
      ghost var last := Pins(port.gpbdat);
      RaiseAll();
      Append4(t0, Raised(l0), BitsTrace(ALL_HIGH, word, 16), [last], Raised(last));
    }

    method Write(word: u16)
      requires Valid()
      modifies port, this
      ensures Valid()
      ensures sent == old(sent) + [word]
      ensures OtherPins(port.gpbdat) == old(OtherPins(port.gpbdat))
    {
      WordsTraceSnoc(before, start, sent, word);
      SendWord(word);
      sent := sent + [word];
    }
  }

  lemma Append4(t: seq<Lines>, a: seq<Lines>, b: seq<Lines>, c: seq<Lines>, d: seq<Lines>)
    ensures t + a + b + c + d == t + (a + b + c + d)
  {
  }

  lemma SendingOn(t: seq<Lines>, l: Lines, word: u16, n: nat)
    requires n > 0
    ensures var l' := l.(clk := true, dat := TopBit(word));
            && (t + BitTrace(l, TopBit(word))) + BitsTrace(l', ShiftOut(word), n - 1) == t + BitsTrace(l, word, n)
            && AfterBits(l, word, n) == AfterBits(l', ShiftOut(word), n - 1)
  {
  }

  lemma {:induction false} WordsTraceConcat(l: Lines, a: seq<u16>, b: seq<u16>)
    ensures WordsTrace(l, a + b) == WordsTrace(l, a) + WordsTrace(if a == [] then l else ALL_HIGH, b)
    decreases |b|
  {
    if b == [] {
      assert a + b == a;
    } else {
      var init, last := b[..|b| - 1], b[|b| - 1];
      WordsTraceConcat(l, a, init);
      WordsTraceStep(l, a, init, last);
      assert b == init + [last];
    }
  }

  lemma WordsTraceStep(l: Lines, a: seq<u16>, init: seq<u16>, last: u16)
    requires WordsTrace(l, a + init) == WordsTrace(l, a) + WordsTrace(if a == [] then l else ALL_HIGH, init)
    ensures WordsTrace(l, a + (init + [last]))
         == WordsTrace(l, a) + WordsTrace(if a == [] then l else ALL_HIGH, init + [last])
  {
    var l' := if a == [] then l else ALL_HIGH;
    var after := if a + init == [] then l else ALL_HIGH;
    assert a + (init + [last]) == (a + init) + [last];
    WordsTraceOneMore(l, a + init, last);
    WordsTraceOneMore(l', init, last);
    Assoc(WordsTrace(l, a), WordsTrace(l', init), WordTrace(after, last));
  }

  lemma WordsTraceOneMore(l: Lines, ws: seq<u16>, w: u16)
    ensures WordsTrace(l, ws + [w]) == WordsTrace(l, ws) + WordTrace(if ws == [] then l else ALL_HIGH, w)
  {
    assert (ws + [w])[..|ws|] == ws;
  }

  lemma Assoc(a: seq<Lines>, b: seq<Lines>, c: seq<Lines>)
    ensures (a + b) + c == a + (b + c)
  {
  }

  lemma SendMore(before: seq<Lines>, start: Lines, sent: seq<u16>, more: seq<u16>)
    ensures before + WordsTrace(start, sent + more)
         == before + WordsTrace(start, sent) + WordsTrace(if sent == [] then start else ALL_HIGH, more)
  {
    WordsTraceConcat(start, sent, more);
    Assoc(before, WordsTrace(start, sent), WordsTrace(if sent == [] then start else ALL_HIGH, more));
  }

  lemma WordsTraceSnoc(t: seq<Lines>, l: Lines, ws: seq<u16>, w: u16)
    ensures t + WordsTrace(l, ws + [w])
         == t + WordsTrace(l, ws) + WordTrace(if ws == [] then l else ALL_HIGH, w)
  {
    assert (ws + [w])[..|ws|] == ws;
  }
}
