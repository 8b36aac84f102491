/** The L3 link to the UDA1341: what the bit-banging driver puts on the wires,
    and an independent receiver that listens to them. */
module L3Bus {
  import opened Gpio

  /** A byte pair as it arrives: the address byte latched last and the data byte. */
  datatype Frame = Frame(addr: bv8, data: bv8)

  // ----- the far end of the wire -----

  /** An L3 receiver. A byte is collected LSB first on rising clock edges; a change of
      the mode line starts a new byte. Mode low collects an address, mode high data. */
  datatype Receiver = Receiver(lines: Lines, shift: bv8, count: nat, addr: bv8, frames: seq<Frame>)

  function Edge(r: Receiver, l: Lines): bool {
    !r.lines.clk && l.clk
  }

  function Shift(reg: bv8, bit: bool): bv8 {
    (reg >> 1) | (if bit then 0x80 else 0)
  }

  function Sample(r: Receiver, l: Lines): Receiver {
    if r.lines.sel != l.sel then
      r.(lines := l, count := 0)
    else if Edge(r, l) then
      var byte := Shift(r.shift, l.dat);
      if r.count < 7 then
        r.(lines := l, shift := byte, count := r.count + 1)
      else if l.sel then
        r.(lines := l, shift := byte, count := 0, frames := r.frames + [Frame(r.addr, byte)])
      else
        r.(lines := l, shift := byte, count := 0, addr := byte)
    else
      r.(lines := l)
  }

  function Listen(r: Receiver, t: seq<Lines>): Receiver
    decreases |t|
  {
    if t == [] then r else Listen(Sample(r, t[0]), t[1..])
  }

  // ----- what the driver does to the wires -----

  function LowBit(byte: bv8): bool {
    byte & 1 == 1
  }

  /** The wires while the low `n` bits of `byte` go out, starting from `l`. */
  function ByteTrace(l: Lines, byte: bv8, n: nat): seq<Lines>
    decreases n, byte
  {
    if n == 0 then [] else
      var bit := LowBit(byte);
      BitTrace(l, bit) + ByteTrace(l.(clk := true, dat := bit), byte >> 1, n - 1)
  }

  /** The wires after `ByteTrace`. */
  function AfterByte(l: Lines, byte: bv8, n: nat): Lines
    decreases n, byte
  {
    if n == 0 then l else AfterByte(l.(clk := true, dat := LowBit(byte)), byte >> 1, n - 1)
  }

  /** Clock, data and mode go high in this order. */
  function Raised(l: Lines): seq<Lines> {
    [l.(clk := true), l.(clk := true, dat := true), ALL_HIGH]
  }

  /** All lines high, then mode low to announce an address. */
  function Preamble(l: Lines): seq<Lines> {
    Raised(l) + [ALL_HIGH.(sel := false)]
  }

  /** The wires during one `l3_write`: address byte with mode low, data byte with mode high. */
  function FrameTrace(l: Lines, f: Frame): seq<Lines> {
    var low := ALL_HIGH.(sel := false);
    var addressed := AfterByte(low, f.addr, 8);
    var sent := AfterByte(addressed.(sel := true), f.data, 8);
    Preamble(l)
    + ByteTrace(low, f.addr, 8)
    + [addressed.(sel := true)]
    + ByteTrace(addressed.(sel := true), f.data, 8)
    + Raised(sent)
  }

  function FramesTrace(l: Lines, fs: seq<Frame>): seq<Lines>
    decreases |fs|
  {
    if fs == [] then [] else FrameTrace(l, fs[0]) + FramesTrace(ALL_HIGH, fs[1..])
  }

  // ----- decoding -----

  lemma {:induction false} ListenConcat(r: Receiver, a: seq<Lines>, b: seq<Lines>)
    ensures Listen(r, a + b) == Listen(Listen(r, a), b)
    decreases |a|
  {
    if a == [] {
      assert a + b == b;
    } else {
      assert (a + b)[1..] == a[1..] + b;
      ListenConcat(Sample(r, a[0]), a[1..], b);
    }
  }

  /** The shift register after the low `n` bits of `byte` came in. */
  function ShiftIn(reg: bv8, byte: bv8, n: nat): bv8
    decreases n, byte
  {
    if n == 0 then reg
    else ShiftIn(Shift(reg, LowBit(byte)), byte >> 1, n - 1)
  }

  function TwoShifts(reg: bv8, byte: bv8): bv8 {
    (reg >> 2) | (byte << 6)
  }

  lemma ShiftInTwo(reg: bv8, byte: bv8, n: nat)
    requires n >= 2
    ensures ShiftIn(reg, byte, n) == ShiftIn(TwoShifts(reg, byte), byte >> 2, n - 2)
  {
    var once := Shift(reg, LowBit(byte));
    assert ShiftIn(reg, byte, n) == ShiftIn(once, byte >> 1, n - 1);
    var twice := Shift(once, LowBit(byte >> 1));
    assert twice == TwoShifts(reg, byte);
    assert (byte >> 1) >> 1 == byte >> 2;
  }

  lemma FourPairsReplaceAll(reg: bv8, byte: bv8)
    ensures TwoShifts(TwoShifts(TwoShifts(TwoShifts(reg, byte), byte >> 2), byte >> 2 >> 2), byte >> 2 >> 2 >> 2) == byte
  {
  }

  lemma EightShiftsReplaceAll(reg: bv8, byte: bv8)
    ensures ShiftIn(reg, byte, 8) == byte
  {
    var r1 := TwoShifts(reg, byte);
    var r2 := TwoShifts(r1, byte >> 2);
    var r3 := TwoShifts(r2, byte >> 2 >> 2);
    ShiftInTwo(reg, byte, 8);
    ShiftInTwo(r1, byte >> 2, 6);
    ShiftInTwo(r2, byte >> 2 >> 2, 4);
    ShiftInTwo(r3, byte >> 2 >> 2 >> 2, 2);
    FourPairsReplaceAll(reg, byte);
  }

  lemma ListenCons(r: Receiver, l: Lines, t: seq<Lines>)
    ensures Listen(r, [l] + t) == Listen(Sample(r, l), t)
  {
    assert ([l] + t)[1..] == t;
  }

  lemma ListenOne(r: Receiver, l: Lines)
    ensures Listen(r, [l]) == Sample(r, l)
  {
    assert Listen(Sample(r, l), []) == Sample(r, l);
  }

  lemma ListenThree(r: Receiver, a: Lines, b: Lines, c: Lines)
    ensures Listen(r, [a, b, c]) == Sample(Sample(Sample(r, a), b), c)
  {
    ListenOne(Sample(Sample(r, a), b), c);
    ListenCons(Sample(r, a), b, [c]);
    ListenCons(r, a, [b, c]);
    assert [a, b, c] == [a] + [b, c] && [b, c] == [b] + [c];
  }

  /** A receiver to which the next bit of its byte has just been clocked. */
  function TakeBit(r: Receiver, bit: bool): Receiver {
    var byte := Shift(r.shift, bit);
    var r' := r.(lines := r.lines.(clk := true, dat := bit), shift := byte);
    if r.count < 7 then r'.(count := r.count + 1)
    else if r.lines.sel then r'.(count := 0, frames := r.frames + [Frame(r.addr, byte)])
    else r'.(count := 0, addr := byte)
  }

  lemma BitArrives(r: Receiver, bit: bool)
    ensures Listen(r, BitTrace(r.lines, bit)) == TakeBit(r, bit)
  {
    ListenThree(r, r.lines.(clk := false), r.lines.(clk := false, dat := bit), r.lines.(clk := true, dat := bit));
  }

  /** `n` more bits of a byte in progress, the last one completing it. */
  lemma {:induction false} BitsArrive(r: Receiver, byte: bv8, n: nat)
    requires 0 < n <= 8 && r.count == 8 - n
    ensures Listen(r, ByteTrace(r.lines, byte, n)) ==
            Collected(r, AfterByte(r.lines, byte, n), ShiftIn(r.shift, byte, n))
    decreases n
  {
    var bit := LowBit(byte);
    BitArrives(r, bit);
    ListenConcat(r, BitTrace(r.lines, bit), ByteTrace(TakeBit(r, bit).lines, byte >> 1, n - 1));
    if n > 1 {
      BitsArrive(TakeBit(r, bit), byte >> 1, n - 1);
    }
  }

  /** A receiver that just completed the byte `got` with the wires at `l`. */
  function Collected(r: Receiver, l: Lines, got: bv8): Receiver {
    if r.lines.sel
    then r.(lines := l, shift := got, count := 0, frames := r.frames + [Frame(r.addr, got)])
    else r.(lines := l, shift := got, count := 0, addr := got)
  }

  /** A whole byte arrives whatever the shift register held. */
  lemma ByteArrives(r: Receiver, byte: bv8)
    requires r.count == 0
    ensures Listen(r, ByteTrace(r.lines, byte, 8)) == Collected(r, AfterByte(r.lines, byte, 8), byte)
  {
    BitsArrive(r, byte, 8);
    EightShiftsReplaceAll(r.shift, byte);
  }

  lemma {:induction false} AfterByteLines(l: Lines, byte: bv8, n: nat)
    requires n > 0
    ensures AfterByte(l, byte, n).sel == l.sel && AfterByte(l, byte, n).clk
    decreases n
  {
    if n > 1 {
      AfterByteLines(l.(clk := true, dat := LowBit(byte)), byte >> 1, n - 1);
    }
  }

  // ----- whole frames -----

  /** The first clock edge of a call would complete a stale data byte: the clock was left
      low with mode high and seven bits already collected. */
  predicate StaleByte(r: Receiver) {
    r.lines.sel && !r.lines.clk && r.count >= 7
  }

  function StaleFrames(r: Receiver): seq<Frame> {
    if StaleByte(r) then [Frame(r.addr, Shift(r.shift, r.lines.dat))] else []
  }

  /** Raising the lines clocks in at most one stray bit, and only a stale byte emits a frame. */
  lemma RaisedArrives(r: Receiver)
    ensures var up := Listen(r, Raised(r.lines));
            up.lines == ALL_HIGH && up.frames == r.frames + StaleFrames(r)
    ensures r.lines.sel && r.lines.clk ==> Listen(r, Raised(r.lines)) == r.(lines := ALL_HIGH)
  {
    var l1 := r.lines.(clk := true);
    var l2 := l1.(dat := true);
    var r1 := Sample(r, l1);
    var r2 := Sample(r1, l2);
    ListenThree(r, l1, l2, ALL_HIGH);
    assert r2 == r1.(lines := l2);
    assert Sample(r2, ALL_HIGH).frames == r1.frames;
  }

  /** Whatever the receiver and the wires were doing, it is ready for an address byte
      once the preamble is over. */
  lemma PreambleArrives(r: Receiver)
    ensures var ready := Listen(r, Preamble(r.lines));
            ready.lines == ALL_HIGH.(sel := false) && ready.count == 0
            && ready.frames == r.frames + StaleFrames(r)
  {
    RaisedArrives(r);
    ListenConcat(r, Raised(r.lines), [ALL_HIGH.(sel := false)]);
    ListenOne(Listen(r, Raised(r.lines)), ALL_HIGH.(sel := false));
  }

  /** From any pin state and any receiver state, one `l3_write` is received as exactly its
      own address and data, after the stale byte if there was one. */
  lemma FrameArrives(r: Receiver, f: Frame)
    ensures Listen(r, FrameTrace(r.lines, f)) ==
            Receiver(ALL_HIGH, f.data, 0, f.addr, r.frames + StaleFrames(r) + [f])
  {
    var ready := Listen(r, Preamble(r.lines));
    PreambleArrives(r);
    ByteArrives(ready, f.addr);
    AfterByteLines(ready.lines, f.addr, 8);
    var addressed := Listen(ready, ByteTrace(ready.lines, f.addr, 8));
    var turned := Sample(addressed, addressed.lines.(sel := true));
    ListenOne(addressed, turned.lines);
    ByteArrives(turned, f.data);
    AfterByteLines(turned.lines, f.data, 8);
    var sent := Listen(turned, ByteTrace(turned.lines, f.data, 8));
    RaisedArrives(sent);
    var t4 := Raised(sent.lines);
    var t3 := ByteTrace(turned.lines, f.data, 8);
    var t1 := ByteTrace(ready.lines, f.addr, 8);
    ListenConcat(r, Preamble(r.lines) + t1 + [turned.lines] + t3, t4);
    ListenConcat(r, Preamble(r.lines) + t1 + [turned.lines], t3);
    ListenConcat(r, Preamble(r.lines) + t1, [turned.lines]);
    ListenConcat(r, Preamble(r.lines), t1);
  }

  /** The trace of any sequence of `l3_write` calls decodes to exactly that sequence. */
  lemma {:induction false} FramesArrive(r: Receiver, fs: seq<Frame>)
    ensures var heard := Listen(r, FramesTrace(r.lines, fs));
            heard.frames == r.frames + (if fs == [] then [] else StaleFrames(r)) + fs
            && (fs != [] ==> heard.lines == ALL_HIGH && heard.count == 0)
    decreases |fs|
  {
    if fs != [] {
      var r1 := Listen(r, FrameTrace(r.lines, fs[0]));
      FrameArrives(r, fs[0]);
      ListenConcat(r, FrameTrace(r.lines, fs[0]), FramesTrace(ALL_HIGH, fs[1..]));
      FramesArrive(r1, fs[1..]);
      HeadFirst(r.frames + StaleFrames(r), fs);
      assert r1.frames + [] == r1.frames;
    }
  }

  lemma HeadFirst(s: seq<Frame>, fs: seq<Frame>)
    requires fs != []
    ensures s + [fs[0]] + fs[1..] == s + fs
  {
  }

  lemma {:induction false} FramesTraceConcat(l: Lines, a: seq<Frame>, b: seq<Frame>)
    ensures FramesTrace(l, a + b) == FramesTrace(l, a) + FramesTrace(if a == [] then l else ALL_HIGH, b)
    decreases |a|
  {
    if a == [] {
      assert a + b == b;
    } else {
      assert (a + b)[1..] == a[1..] + b;
      FramesTraceConcat(ALL_HIGH, a[1..], b);
      Assoc(FrameTrace(l, a[0]), FramesTrace(ALL_HIGH, a[1..]), FramesTrace(ALL_HIGH, b));
    }
  }

  lemma FramesTraceOne(l: Lines, f: Frame)
    ensures FramesTrace(l, [f]) == FrameTrace(l, f)
  {
    assert [f][1..] == [];
    assert FramesTrace(ALL_HIGH, []) == [];
    assert FramesTrace(l, [f]) == FrameTrace(l, f) + FramesTrace(ALL_HIGH, [f][1..]);
  }

  lemma FramesTraceSnoc(t: seq<Lines>, l: Lines, fs: seq<Frame>, f: Frame)
    ensures t + FramesTrace(l, fs + [f])
         == t + FramesTrace(l, fs) + FrameTrace(if fs == [] then l else ALL_HIGH, f)
  {
    var l' := if fs == [] then l else ALL_HIGH;
    FramesTraceConcat(l, fs, [f]);
    FramesTraceOne(l', f);
    Assoc(t, FramesTrace(l, fs), FrameTrace(l', f));
  }

  lemma Assoc(a: seq<Lines>, b: seq<Lines>, c: seq<Lines>)
    ensures a + (b + c) == (a + b) + c
  {
  }

  /** A stale byte is the only thing that can spoil a transmission. */
  lemma DecodesExactlyUnlessStale(r: Receiver, fs: seq<Frame>)
    requires fs != []
    ensures Listen(r, FramesTrace(r.lines, fs)).frames == r.frames + fs <==> !StaleByte(r)
  {
    FramesArrive(r, fs);
    if StaleByte(r) {
      assert |r.frames + StaleFrames(r) + fs| == |r.frames + fs| + 1;
    } else {
      assert r.frames + StaleFrames(r) == r.frames;
    }
  }

  /** Seven bits of a data byte collected and the clock left low: the first edge makes a frame of them
      that nobody sent. */
  lemma StaleByteIsHeard(f: Frame)
    ensures var r := Receiver(Lines(true, false, true), 0, 7, 0, []);
            Listen(r, FramesTrace(r.lines, [f])).frames == [Frame(0, 0x80), f]
  {
    var r := Receiver(Lines(true, false, true), 0, 7, 0, []);
    FramesArrive(r, [f]);
    var zero: bv8 := 0;
    assert zero >> 1 == 0;
  }

  // ----- line discipline -----

  /** One change of the wires. The mode line may move only while the clock is high, and a
      rising clock edge finds mode and data settled. With `inByte`, additionally, data moves
      while the clock is high only between bytes, and so does the mode line. */
  predicate Legal(r: Receiver, l: Lines, inByte: bool) {
    && (l.sel != r.lines.sel ==> l.clk && r.lines.clk)
    && (Edge(r, l) ==> l.sel == r.lines.sel && l.dat == r.lines.dat)
    && (inByte ==>
          && (l.dat != r.lines.dat ==> !l.clk || r.count == 0)
          && (l.sel != r.lines.sel ==> r.count == 0))
  }

  predicate Disciplined(r: Receiver, t: seq<Lines>, inByte: bool)
    decreases |t|
  {
    t == [] || (Legal(r, t[0], inByte) && Disciplined(Sample(r, t[0]), t[1..], inByte))
  }

  lemma {:induction false} DisciplinedConcat(r: Receiver, a: seq<Lines>, b: seq<Lines>, inByte: bool)
    requires Disciplined(r, a, inByte) && Disciplined(Listen(r, a), b, inByte)
    ensures Disciplined(r, a + b, inByte)
    decreases |a|
  {
    if a == [] {
      assert a + b == b;
    } else {
      assert (a + b)[1..] == a[1..] + b;
      DisciplinedConcat(Sample(r, a[0]), a[1..], b, inByte);
    }
  }

  lemma DisciplinedCons(r: Receiver, l: Lines, t: seq<Lines>, inByte: bool)
    requires Legal(r, l, inByte) && Disciplined(Sample(r, l), t, inByte)
    ensures Disciplined(r, [l] + t, inByte)
  {
    assert ([l] + t)[1..] == t;
  }

  lemma {:induction false} BitsDisciplined(r: Receiver, byte: bv8, n: nat, inByte: bool)
    requires n <= 8 && (n > 0 ==> r.count == 8 - n)
    ensures Disciplined(r, ByteTrace(r.lines, byte, n), inByte)
    decreases n
  {
    if n > 0 {
      var bit := LowBit(byte);
      var l := r.lines;
      var r1 := Sample(r, l.(clk := false));
      var r2 := Sample(r1, l.(clk := false, dat := bit));
      assert Disciplined(r2, [l.(clk := true, dat := bit)], inByte);
      assert BitTrace(l, bit)[1..][1..] == [l.(clk := true, dat := bit)];
      assert Disciplined(r, BitTrace(l, bit), inByte);
      BitArrives(r, bit);
      BitsDisciplined(TakeBit(r, bit), byte >> 1, n - 1, inByte);
      DisciplinedConcat(r, BitTrace(l, bit), ByteTrace(TakeBit(r, bit).lines, byte >> 1, n - 1), inByte);
    }
  }

  predicate Idle(r: Receiver) {
    r.lines.clk && r.count == 0
  }

  /** Raising the clock leaves the receiver between bytes. */
  predicate Settled(r: Receiver) {
    if r.lines.clk then r.count == 0 else r.count >= 7
  }

  lemma FrameDisciplined(r: Receiver, f: Frame, inByte: bool)
    requires inByte ==> Settled(r)
    ensures Disciplined(r, FrameTrace(r.lines, f), inByte)
  {
    var ready := Listen(r, Preamble(r.lines));
    PreambleArrives(r);
    PreambleDisciplined(r, inByte);
    ByteArrives(ready, f.addr);
    AfterByteLines(ready.lines, f.addr, 8);
    BitsDisciplined(ready, f.addr, 8, inByte);
    var t1 := ByteTrace(ready.lines, f.addr, 8);
    var addressed := Listen(ready, t1);
    var turned := Sample(addressed, addressed.lines.(sel := true));
    ListenOne(addressed, turned.lines);
    ByteArrives(turned, f.data);
    AfterByteLines(turned.lines, f.data, 8);
    BitsDisciplined(turned, f.data, 8, inByte);
    var t3 := ByteTrace(turned.lines, f.data, 8);
    var sent := Listen(turned, t3);
    PostambleDisciplined(sent, inByte);
    ListenConcat(r, Preamble(r.lines), t1);
    ListenConcat(r, Preamble(r.lines) + t1, [turned.lines]);
    ListenConcat(r, Preamble(r.lines) + t1 + [turned.lines], t3);
    DisciplinedConcat(r, Preamble(r.lines), t1, inByte);
    DisciplinedConcat(r, Preamble(r.lines) + t1, [turned.lines], inByte);
    DisciplinedConcat(r, Preamble(r.lines) + t1 + [turned.lines], t3, inByte);
    DisciplinedConcat(r, Preamble(r.lines) + t1 + [turned.lines] + t3, Raised(sent.lines), inByte);
  }

  lemma PreambleDisciplined(r: Receiver, inByte: bool)
    requires inByte ==> Settled(r)
    ensures Disciplined(r, Preamble(r.lines), inByte)
  {
    var l, low := r.lines, ALL_HIGH.(sel := false);
    var up := l.(clk := true);
    var r1 := Sample(r, up);
    var r2 := Sample(r1, up.(dat := true));
    assert r1.lines == up && (inByte ==> r1.count == 0);
    assert r2.lines == up.(dat := true) && (inByte ==> r2.count == 0);
    ReadyDisciplined(r2, inByte);
    DisciplinedCons(r1, up.(dat := true), [ALL_HIGH, low], inByte);
    DisciplinedCons(r, up, [up.(dat := true)] + [ALL_HIGH, low], inByte);
    assert Preamble(l) == [up] + ([up.(dat := true)] + [ALL_HIGH, low]);
  }

  lemma ReadyDisciplined(r: Receiver, inByte: bool)
    requires r.lines.clk && r.lines.dat && (inByte ==> r.count == 0)
    ensures Disciplined(r, [ALL_HIGH, ALL_HIGH.(sel := false)], inByte)
  {
    var low := ALL_HIGH.(sel := false);
    DisciplinedCons(Sample(r, ALL_HIGH), low, [], inByte);
    DisciplinedCons(r, ALL_HIGH, [low], inByte);
    assert [ALL_HIGH, low] == [ALL_HIGH] + [low];
  }

  lemma PostambleDisciplined(r: Receiver, inByte: bool)
    requires r.lines.sel && Idle(r)
    ensures Disciplined(r, Raised(r.lines), inByte)
  {
    var l := r.lines;
    var l2 := l.(clk := true, dat := true);
    DisciplinedCons(Sample(r, l2), ALL_HIGH, [], inByte);
    DisciplinedCons(r, l2, [ALL_HIGH], inByte);
    DisciplinedCons(r, l.(clk := true), [l2] + [ALL_HIGH], inByte);
    assert Raised(l) == [l.(clk := true)] + ([l2] + [ALL_HIGH]);
  }

  /** Any run of writes, from any pin state, keeps the discipline; from a settled link it keeps it
      inside bytes as well. */
  lemma {:induction false} FramesDisciplined(r: Receiver, fs: seq<Frame>, inByte: bool)
    requires inByte ==> Settled(r)
    ensures Disciplined(r, FramesTrace(r.lines, fs), inByte)
    decreases |fs|
  {
    if fs != [] {
      FrameDisciplined(r, fs[0], inByte);
      FrameArrives(r, fs[0]);
      var r1 := Listen(r, FrameTrace(r.lines, fs[0]));
      FramesDisciplined(r1, fs[1..], inByte);
      DisciplinedConcat(r, FrameTrace(r.lines, fs[0]), FramesTrace(ALL_HIGH, fs[1..]), inByte);
    }
  }

  lemma {:induction false} DisciplinedPrefix(r: Receiver, a: seq<Lines>, b: seq<Lines>, inByte: bool)
    requires Disciplined(r, a + b, inByte)
    ensures Disciplined(r, a, inByte)
    decreases |a|
  {
    if a != [] {
      assert (a + b)[1..] == a[1..] + b;
      DisciplinedPrefix(Sample(r, a[0]), a[1..], b, inByte);
    }
  }

  lemma DisciplinedTail(r: Receiver, l: Lines, t: seq<Lines>, inByte: bool)
    requires Disciplined(r, [l] + t, inByte)
    ensures Legal(r, l, inByte) && Disciplined(Sample(r, l), t, inByte)
  {
    assert ([l] + t)[1..] == t;
  }

  /** A link that is not settled is disturbed by the preamble in the middle of a byte. */
  lemma PreambleDisturbs(r: Receiver)
    requires Disciplined(r, Preamble(r.lines), true)
    ensures Settled(r)
  {
    var up := r.lines.(clk := true);
    var up2 := up.(dat := true);
    var low := ALL_HIGH.(sel := false);
    assert Preamble(r.lines) == [up] + ([up2] + ([ALL_HIGH] + [low]));
    DisciplinedTail(r, up, [up2] + ([ALL_HIGH] + [low]), true);
    var r1 := Sample(r, up);
    DisciplinedTail(r1, up2, [ALL_HIGH] + [low], true);
    var r2 := Sample(r1, up2);
    DisciplinedTail(r2, ALL_HIGH, [low], true);
    DisciplinedTail(Sample(r2, ALL_HIGH), low, [], true);
  }

  /** That is the exact condition: within bytes the data line moves only while the clock is low, in
      the whole of any run, if and only if the first rise of the clock leaves the receiver between
      bytes. */
  lemma DisciplinedIffSettled(r: Receiver, fs: seq<Frame>)
    requires fs != []
    ensures Disciplined(r, FramesTrace(r.lines, fs), true) <==> Settled(r)
  {
    if Settled(r) {
      FramesDisciplined(r, fs, true);
    }
    if Disciplined(r, FramesTrace(r.lines, fs), true) {
      var rest := FrameTrace(r.lines, fs[0])[4..] + FramesTrace(ALL_HIGH, fs[1..]);
      assert FramesTrace(r.lines, fs) == Preamble(r.lines) + rest;
      DisciplinedPrefix(r, Preamble(r.lines), rest, true);
      PreambleDisturbs(r);
    }
  }

  // ----- the driver -----

  lemma Append6(t: seq<Lines>, a: seq<Lines>, b: seq<Lines>, c: seq<Lines>, d: seq<Lines>, e: seq<Lines>, f: seq<Lines>)
    ensures t + a + b + c + d + e + f == t + (a + b + c + d + e + f)
  {
  }

  lemma SendingOn(t: seq<Lines>, l: Lines, byte: bv8, n: nat)
    requires n > 0
    ensures (t + BitTrace(l, LowBit(byte))) + ByteTrace(l.(clk := true, dat := LowBit(byte)), byte >> 1, n - 1)
         == t + ByteTrace(l, byte, n)
    ensures AfterByte(l, byte, n) == AfterByte(l.(clk := true, dat := LowBit(byte)), byte >> 1, n - 1)
  {
  }

  /** The bit-banging half of the driver, over a GPIO port nobody else drives. */
  class L3Master {
    const port: GpioBank
    /** The wires when this driver took them over, and the trace up to then. */
    ghost const start: Lines
    ghost const before: seq<Lines>
    /** Every `l3_write` so far. */
    ghost var sent: seq<Frame>

    /** The wires went through the frames sent and nothing else. */
    ghost predicate Valid()
      reads this, port
    {
      && port.trace == before + FramesTrace(start, sent)
      && Pins(port.gpbdat) == (if sent == [] then start else ALL_HIGH)
    }

    constructor (port: GpioBank)
      ensures Valid() && this.port == port && sent == []
      ensures start == Pins(port.gpbdat) && before == port.trace
    {
      this.port := port;
      start, before, sent := Pins(port.gpbdat), port.trace, [];
    }

    method SendByte(byte: bv8)
      modifies port
      ensures port.trace == old(port.trace) + ByteTrace(old(Pins(port.gpbdat)), byte, 8)
      ensures Pins(port.gpbdat) == AfterByte(old(Pins(port.gpbdat)), byte, 8)
      ensures OtherPins(port.gpbdat) == old(OtherPins(port.gpbdat))
    {
      var rest := byte;
      ghost var t0, l0, others := port.trace, Pins(port.gpbdat), OtherPins(port.gpbdat);
      for i := 0 to 8
        invariant port.trace + ByteTrace(Pins(port.gpbdat), rest, 8 - i) == t0 + ByteTrace(l0, byte, 8)
        invariant AfterByte(Pins(port.gpbdat), rest, 8 - i) == AfterByte(l0, byte, 8)
        invariant OtherPins(port.gpbdat) == others
      {
        SendingOn(port.trace, Pins(port.gpbdat), rest, 8 - i);
        port.SendBit(LowBit(rest));
        rest := rest >> 1;
      }
    }

    method RaiseAll()
      modifies port
      ensures port.trace == old(port.trace) + Raised(old(Pins(port.gpbdat)))
      ensures Pins(port.gpbdat) == ALL_HIGH
      ensures OtherPins(port.gpbdat) == old(OtherPins(port.gpbdat))
    {
      port.SetClk(true);
      port.SetDat(true);
      port.SetSel(true);
    }

    /** The pin activity of one `l3_write`. */
    method SendFrame(addr: bv8, data: bv8)
      modifies port
      ensures port.trace == old(port.trace) + FrameTrace(old(Pins(port.gpbdat)), Frame(addr, data))
      ensures Pins(port.gpbdat) == ALL_HIGH
      ensures OtherPins(port.gpbdat) == old(OtherPins(port.gpbdat))
    {
      ghost var t0, l0 := port.trace, Pins(port.gpbdat);
      RaiseAll();

      port.SetSel(false);
      SendByte(addr);

      port.SetSel(true);
      ghost var turned := Pins(port.gpbdat);
      SendByte(data);
      ghost var last := Pins(port.gpbdat);

      RaiseAll();
      Append6(t0, Raised(l0), [ALL_HIGH.(sel := false)], ByteTrace(ALL_HIGH.(sel := false), addr, 8),
              [turned], ByteTrace(turned, data, 8), Raised(last));
    }

    method Write(addr: bv8, data: bv8)
      requires Valid()
      modifies port, this
      ensures Valid()
      ensures sent == old(sent) + [Frame(addr, data)]
      ensures OtherPins(port.gpbdat) == old(OtherPins(port.gpbdat))
    {
      FramesTraceSnoc(before, start, sent, Frame(addr, data));
      SendFrame(addr, data);
      sent := sent + [Frame(addr, data)];
    }
  }
}
