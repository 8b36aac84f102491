/** The UDA1341 codec driver: write-only registers behind the L3 link, shadowed by a cache. */
module Uda1341 {
  import opened Gpio
  import opened L3Bus
  import opened Words

  const REG_NUM := 12
  const DATA00 := 0
  const DATA01 := 1
  const DATA10 := 2
  const EA000 := 3
  const EA110 := 8
  const DATA1 := 9
  const STATUS0 := 10
  const STATUS1 := 11

  const DATA0_ADDR: bv8 := 0x14
  const DATA1_ADDR: bv8 := 0x15
  const STATUS_ADDR: bv8 := 0x16
  const EXTADDR_PREFIX: bv8 := 0xC0
  const EXTDATA_PREFIX: bv8 := 0xE0

  type Reg = r: nat | r < REG_NUM

  /** The driver's address table; for the extended registers it holds their EA number. */
  function RegAddr(reg: Reg): bv8 {
    match reg
    case 0 => DATA0_ADDR case 1 => DATA0_ADDR case 2 => DATA0_ADDR
    case 3 => 0 case 4 => 1 case 5 => 2 case 6 => 4 case 7 => 5 case 8 => 6
    case 9 => DATA1_ADDR
    case _ => STATUS_ADDR
  }

  /** The driver's prefix table. */
  function DataBit(reg: Reg): bv8 {
    match reg
    case 1 => 0x40 case 2 => 0x80 case 11 => 0x80 case _ => 0x00
  }

  const REG_DEFAULT: seq<u8> :=
    [0x00, 0x40, 0x80, 0x04, 0x04, 0x04, 0x00, 0x00, 0x00, 0x00, 0x00, 0x83]

  /** An unsigned int stored into a u8. */
  function Byte(value: nat): u8 {
    value % 256
  }

  /** The same eight bits as they go over the wire. */
  function Wire(value: nat): bv8 {
    Byte(value) as bv8
  }

  // ----- the chip -----

  /** The chip's own registers, named by how they are selected on the wire. */
  datatype Slot = Direct(sel: bv8) | Extended(ea: bv8) | Data1 | Status(high: bool)

  /** A register is absent while it holds its reset value, or nobody knows what it holds. `ea` is the
      extended address latched by the first of the two bytes of an extended write. */
  datatype Chip = Chip(regs: map<Slot, bv8>, ea: bv8)

  /** STAT0_RST in a byte for STATUS0 puts every register back to its default. */
  predicate IsResetByte(b: bv8) {
    b & 0xC0 == 0x40
  }

  function Receive(c: Chip, f: Frame): Chip {
    if f.addr == DATA0_ADDR then
      if f.data & 0xC0 != 0xC0 then c.(regs := c.regs[Direct(f.data >> 6) := f.data & 0x3f])
      else if f.data & 0x20 == 0 then c.(ea := f.data & 0x07)
      else c.(regs := c.regs[Extended(c.ea) := f.data & 0x1f])
    else if f.addr == DATA1_ADDR then c.(regs := c.regs[Slot.Data1 := f.data])
    else if f.addr == STATUS_ADDR then
      if IsResetByte(f.data) then c.(regs := map[Status(false) := f.data & 0x7f])
      else c.(regs := c.regs[Status(f.data & 0x80 != 0) := f.data & 0x7f])
    else c
  }

  function ReceiveAll(c: Chip, fs: seq<Frame>): Chip
    decreases |fs|
  {
    if fs == [] then c else ReceiveAll(Receive(c, fs[0]), fs[1..])
  }

  lemma {:induction false} ReceiveConcat(c: Chip, a: seq<Frame>, b: seq<Frame>)
    ensures ReceiveAll(c, a + b) == ReceiveAll(ReceiveAll(c, a), b)
    decreases |a|
  {
    if a == [] {
      assert a + b == b;
    } else {
      assert (a + b)[1..] == a[1..] + b;
      ReceiveConcat(Receive(c, a[0]), a[1..], b);
    }
  }

  // ----- what a register number means -----

  /** The chip register a driver register number stands for. */
  function SlotOf(reg: Reg): Slot {
    match reg
    case 0 => Direct(0) case 1 => Direct(1) case 2 => Direct(2)
    case 3 => Extended(0) case 4 => Extended(1) case 5 => Extended(2)
    case 6 => Extended(4) case 7 => Extended(5) case 8 => Extended(6)
    case 9 => Slot.Data1
    case 10 => Status(false)
    case _ => Status(true)
  }

  lemma SlotsAreDistinct(a: Reg, b: Reg)
    ensures SlotOf(a) == SlotOf(b) <==> a == b
  {
  }

  predicate IsExtended(reg: Reg) {
    EA000 <= reg <= EA110
  }

  /** The payload bits of a register; the other bits of its data byte select the register. */
  function PayloadMask(reg: Reg): bv8 {
    if reg <= DATA10 then 0x3f
    else if IsExtended(reg) then 0x1f
    else if reg == DATA1 then 0xff
    else 0x7f
  }

  /** The bits of the value that could change which register its data byte goes to.
      Extended writes force all their selector bits, so they have none. */
  function SelectorMask(reg: Reg): bv8 {
    if reg <= DATA10 then 0xC0 else if reg >= STATUS0 then 0x80 else 0
  }

  /** The selector bits of the value agree with the prefix the driver adds. */
  predicate KeepsSelector(reg: Reg, value: nat) {
    (Wire(value) & SelectorMask(reg)) & !DataBit(reg) == 0
  }

  /** A write that resets the chip. */
  predicate Resets(reg: nat, value: nat) {
    reg == STATUS0 && IsResetByte(Wire(value))
  }

  // ----- one write -----

  function WriteFrames(reg: Reg, value: nat): seq<Frame> {
    if IsExtended(reg)
    then [Frame(DATA0_ADDR, RegAddr(reg) | EXTADDR_PREFIX), Frame(DATA0_ADDR, Wire(value) | EXTDATA_PREFIX)]
    else [Frame(RegAddr(reg), Wire(value) | DataBit(reg))]
  }

  // The bytes each register number stands for on the wire.

  function PlainFrame(reg: Reg, b: bv8): Frame {
    match reg
    case 0 => Frame(0x14, b) case 1 => Frame(0x14, b | 0x40) case 2 => Frame(0x14, b | 0x80)
    case 9 => Frame(0x15, b) case 10 => Frame(0x16, b) case _ => Frame(0x16, b | 0x80)
  }

  lemma PlainFrames(reg: Reg, b: bv8)
    requires !IsExtended(reg)
    ensures Frame(RegAddr(reg), b | DataBit(reg)) == PlainFrame(reg, b)
  {
    OrZero(b);
  }

  lemma PlainBytes(reg: Reg, value: nat)
    requires !IsExtended(reg)
    ensures WriteFrames(reg, value) == [PlainFrame(reg, (value % 256) as bv8)]
  {
    PlainFrames(reg, (value % 256) as bv8);
  }

  lemma ExtendedBytes(reg: Reg, value: nat)
    requires IsExtended(reg)
    ensures WriteFrames(reg, value) == [Frame(0x14, ExtendedAddress(reg)), Frame(0x14, (value % 256) as bv8 | 0xE0)]
  {
    ExtendedAddresses(reg);
  }

  function ExtendedAddress(reg: Reg): bv8 {
    match reg
    case 3 => 0xC0 case 4 => 0xC1 case 5 => 0xC2 case 6 => 0xC4 case 7 => 0xC5 case _ => 0xC6
  }

  lemma ExtendedAddresses(reg: Reg)
    requires IsExtended(reg)
    ensures RegAddr(reg) | EXTADDR_PREFIX == ExtendedAddress(reg)
  {
  }

  lemma ReceiveTwo(c: Chip, f: Frame, g: Frame)
    ensures ReceiveAll(c, [f, g]) == Receive(Receive(c, f), g)
    ensures ReceiveAll(c, [f]) == Receive(c, f)
  {
    assert [f, g][1..] == [g] && [f][1..] == [] && [g][1..] == [];
    assert ReceiveAll(Receive(Receive(c, f), g), [g][1..]) == Receive(Receive(c, f), g);
    assert ReceiveAll(Receive(c, f), [f][1..]) == Receive(c, f);
  }

  /** The chip after a write: the payload in the register meant, and no other register touched. */
  predicate Lands(c: Chip, reg: Reg, value: nat) {
    ReceiveAll(c, WriteFrames(reg, value)).regs == c.regs[SlotOf(reg) := Wire(value) & PayloadMask(reg)]
  }

  lemma DirectLands(c: Chip, b: bv8, prefix: bv8)
    requires prefix == 0x00 || prefix == 0x40 || prefix == 0x80
    requires (b & 0xC0) & !prefix == 0
    ensures ReceiveAll(c, [Frame(DATA0_ADDR, b | prefix)]).regs == c.regs[Direct(prefix >> 6) := b & 0x3f]
  {
    var data := b | prefix;
    ReceiveTwo(c, Frame(DATA0_ADDR, data), Frame(DATA0_ADDR, data));
    assert data & 0xC0 == prefix;
    assert data >> 6 == prefix >> 6;
    assert data & 0x3f == b & 0x3f;
  }

  lemma StatusLands(c: Chip, b: bv8, prefix: bv8)
    requires prefix == 0x00 || prefix == 0x80
    requires (b & 0x80) & !prefix == 0 && !IsResetByte(b | prefix)
    ensures ReceiveAll(c, [Frame(STATUS_ADDR, b | prefix)]).regs == c.regs[Status(prefix != 0) := b & 0x7f]
  {
    var data := b | prefix;
    ReceiveTwo(c, Frame(STATUS_ADDR, data), Frame(STATUS_ADDR, data));
    assert data & 0x80 == prefix;
    assert data & 0x7f == b & 0x7f;
  }

  /** A reset leaves nothing but its own payload. */
  lemma ResetClears(c: Chip, value: nat)
    requires Resets(STATUS0, value)
    ensures ReceiveAll(c, WriteFrames(STATUS0, value)).regs == map[SlotOf(STATUS0) := Wire(value) & PayloadMask(STATUS0)]
  {
    var f := Frame(STATUS_ADDR, Wire(value) | DataBit(STATUS0));
    ReceiveTwo(c, f, f);
    OrZero(Wire(value));
  }

  lemma OrZero(b: bv8)
    ensures b | 0 == b
  {
  }

  lemma HighIsNoReset(b: bv8)
    ensures !IsResetByte(b | 0x80)
  {
  }

  /** The two-byte extended write: the first byte latches the address the second one uses. */
  lemma ExtendedLands(c: Chip, ea: bv8, b: bv8)
    requires ea <= 7
    ensures ReceiveAll(c, [Frame(DATA0_ADDR, ea | EXTADDR_PREFIX), Frame(DATA0_ADDR, b | EXTDATA_PREFIX)]).regs
         == c.regs[Extended(ea) := b & 0x1f]
  {
    var f, g := Frame(DATA0_ADDR, ea | EXTADDR_PREFIX), Frame(DATA0_ADDR, b | EXTDATA_PREFIX);
    ReceiveTwo(c, f, g);
    assert f.data & 0xC0 == 0xC0 && f.data & 0x20 == 0 && f.data & 0x07 == ea;
    assert g.data & 0xC0 == 0xC0 && g.data & 0x20 != 0 && g.data & 0x1f == b & 0x1f;
  }

  lemma WriteLands(c: Chip, reg: Reg, value: nat)
    requires KeepsSelector(reg, value) && !Resets(reg, value)
    ensures Lands(c, reg, value)
  {
    if IsExtended(reg) {
      ExtendedLands(c, RegAddr(reg), Wire(value));
    } else {
      PlainWriteLands(c, reg, Wire(value));
    }
  }

  lemma PlainWriteLands(c: Chip, reg: Reg, b: bv8)
    requires !IsExtended(reg) && (b & SelectorMask(reg)) & !DataBit(reg) == 0
    requires !(reg == STATUS0 && IsResetByte(b))
    ensures ReceiveAll(c, [Frame(RegAddr(reg), b | DataBit(reg))]).regs
         == c.regs[SlotOf(reg) := b & PayloadMask(reg)]
  {
    var prefix := DataBit(reg);
    if reg <= DATA10 {
      DirectLands(c, b, prefix);
      DirectSlot(reg);
    } else if reg == DATA1 {
      DataOneLands(c, b);
    } else {
      HighIsNoReset(b);
      OrZero(b);
      StatusLands(c, b, prefix);
    }
  }

  lemma DirectSlot(reg: Reg)
    requires reg <= DATA10
    ensures SlotOf(reg) == Direct(DataBit(reg) >> 6)
  {
    var p0: bv8, p1: bv8, p2: bv8 := 0x00, 0x40, 0x80;
    assert p0 >> 6 == 0 && p1 >> 6 == 1 && p2 >> 6 == 2;
  }

  lemma DataOneLands(c: Chip, b: bv8)
    ensures ReceiveAll(c, [Frame(DATA1_ADDR, b | 0)]).regs == c.regs[Slot.Data1 := b & 0xff]
  {
    ReceiveTwo(c, Frame(DATA1_ADDR, b | 0), Frame(DATA1_ADDR, b | 0));
    assert b | 0 == b && b & 0xff == b;
  }

  /** A value whose own bits clash with the selector ends up elsewhere. */
  lemma SpoiledWriteMisses(reg: Reg, value: nat)
    requires !KeepsSelector(reg, value)
    ensures !Lands(Chip(map[], 0), reg, value)
  {
    var b, prefix := Wire(value), DataBit(reg);
    if reg <= DATA10 {
      DirectSlot(reg);
      DirectMisses(b, prefix);
    } else if reg >= STATUS0 {
      StatusMisses(b, prefix);
    } else {
      NoSelector(b, prefix);
    }
  }

  lemma DirectMisses(b: bv8, prefix: bv8)
    requires prefix == 0x00 || prefix == 0x40 || prefix == 0x80
    requires (b & 0xC0) & !prefix != 0
    ensures Direct(prefix >> 6) !in ReceiveAll(Chip(map[], 0), [Frame(DATA0_ADDR, b | prefix)]).regs
  {
    var f := Frame(DATA0_ADDR, b | prefix);
    ReceiveTwo(Chip(map[], 0), f, f);
    SelectorSpoiled(b, prefix);
  }

  lemma StatusMisses(b: bv8, prefix: bv8)
    requires prefix == 0x00 || prefix == 0x80
    requires (b & 0x80) & !prefix != 0
    ensures Status(prefix != 0) !in ReceiveAll(Chip(map[], 0), [Frame(STATUS_ADDR, b | prefix)]).regs
  {
    var f := Frame(STATUS_ADDR, b | prefix);
    ReceiveTwo(Chip(map[], 0), f, f);
    StatusSpoiled(b, prefix);
  }

  lemma ResetMisses(value: nat)
    requires Resets(STATUS0, value)
    ensures !Lands(Chip(map[Slot.Data1 := 0], 0), STATUS0, value)
  {
    var c := Chip(map[Slot.Data1 := 0], 0);
    ResetClears(c, value);
    assert Slot.Data1 in c.regs[SlotOf(STATUS0) := Wire(value) & PayloadMask(STATUS0)];
  }

  lemma NoSelector(b: bv8, prefix: bv8)
    ensures (b & 0) & !prefix == 0
  {
  }

  lemma SelectorSpoiled(b: bv8, prefix: bv8)
    requires prefix == 0x00 || prefix == 0x40 || prefix == 0x80
    requires (b & 0xC0) & !prefix != 0
    ensures (b | prefix) & 0xC0 == 0xC0 || (b | prefix) >> 6 != prefix >> 6
  {
  }

  lemma StatusSpoiled(b: bv8, prefix: bv8)
    requires prefix == 0x00 || prefix == 0x80
    requires (b & 0x80) & !prefix != 0
    ensures prefix == 0 && (b | prefix) & 0x80 != 0
  {
  }

  /** A write reaches exactly the register it names, on every chip, if and only if the value
      leaves the selector bits alone and does not reset the chip. */
  lemma LandsIffProper(reg: Reg, value: nat)
    ensures (forall c: Chip :: Lands(c, reg, value)) <==> KeepsSelector(reg, value) && !Resets(reg, value)
  {
    if !KeepsSelector(reg, value) {
      SpoiledWriteMisses(reg, value);
    } else if Resets(reg, value) {
      ResetMisses(value);
    } else {
      forall c: Chip ensures Lands(c, reg, value) {
        WriteLands(c, reg, value);
      }
    }
  }

  // ----- any sequence of writes -----

  datatype Write = Write(reg: nat, value: nat)

  datatype State = State(cache: seq<u8>, chip: Chip)

  function Cached(cache: seq<u8>, w: Write): (cache': seq<u8>)
    requires |cache| == REG_NUM
    ensures |cache'| == REG_NUM
  {
    if w.reg >= REG_NUM then cache else cache[w.reg := Byte(w.value)]
  }

  /** One `uda1341_write_reg` call: an unknown register is refused and changes nothing. */
  function Step(s: State, w: Write): State
    requires |s.cache| == REG_NUM
  {
    if w.reg >= REG_NUM then s
    else State(Cached(s.cache, w), ReceiveAll(s.chip, WriteFrames(w.reg, w.value)))
  }

  function Run(s: State, ws: seq<Write>): (s': State)
    requires |s.cache| == REG_NUM
    ensures |s'.cache| == REG_NUM
    decreases |ws|
  {
    if ws == [] then s else Step(Run(s, ws[..|ws| - 1]), ws[|ws| - 1])
  }

  predicate Written(reg: Reg, ws: seq<Write>) {
    exists i :: 0 <= i < |ws| && ws[i].reg == reg
  }

  predicate WasReset(ws: seq<Write>)
    decreases |ws|
  {
    ws != [] && (Resets(ws[|ws| - 1].reg, ws[|ws| - 1].value) || WasReset(ws[..|ws| - 1]))
  }

  /** The register was written and the chip has not been reset since. */
  predicate Live(reg: Reg, ws: seq<Write>)
    decreases |ws|
  {
    var last := |ws| - 1;
    ws != [] &&
    (ws[last].reg == reg || (!Resets(ws[last].reg, ws[last].value) && Live(reg, ws[..last])))
  }

  function LastValue(reg: Reg, ws: seq<Write>): nat
    requires Live(reg, ws)
    decreases |ws|
  {
    var last := |ws| - 1;
    if ws[last].reg == reg then ws[last].value else LastValue(reg, ws[..last])
  }

  predicate AllKeepSelector(ws: seq<Write>) {
    forall i :: 0 <= i < |ws| && ws[i].reg < REG_NUM ==> KeepsSelector(ws[i].reg, ws[i].value)
  }

  predicate SameSlot(c: Chip, d: Chip, slot: Slot) {
    (slot in c.regs <==> slot in d.regs) && (slot in c.regs ==> c.regs[slot] == d.regs[slot])
  }

  /** The cache entry is the value's low byte and the chip register holds its payload. */
  predicate Holds(s: State, reg: Reg, value: nat)
    requires |s.cache| == REG_NUM
  {
    && s.cache[reg] == Byte(value)
    && SlotOf(reg) in s.chip.regs
    && s.chip.regs[SlotOf(reg)] == Wire(value) & PayloadMask(reg)
  }

  predicate Untouched(s: State, t: State, reg: Reg)
    requires |s.cache| == REG_NUM && |t.cache| == REG_NUM
  {
    s.cache[reg] == t.cache[reg] && SameSlot(s.chip, t.chip, SlotOf(reg))
  }

  lemma WrittenLast(reg: Reg, ws: seq<Write>)
    requires ws != []
    ensures Written(reg, ws) <==> ws[|ws| - 1].reg == reg || Written(reg, ws[..|ws| - 1])
  {
    var last := |ws| - 1;
    if Written(reg, ws[..last]) {
      var i :| 0 <= i < last && ws[..last][i].reg == reg;
      assert ws[i].reg == reg;
    }
    if Written(reg, ws) && ws[last].reg != reg {
      var i :| 0 <= i < |ws| && ws[i].reg == reg;
      assert ws[..last][i].reg == reg;
    }
  }

  lemma LandTracks(s: State, w: Write, reg: Reg)
    requires |s.cache| == REG_NUM && w.reg < REG_NUM
    requires Lands(s.chip, w.reg, w.value)
    ensures if w.reg == reg then Holds(Step(s, w), reg, w.value) else Untouched(s, Step(s, w), reg)
  {
    SlotsAreDistinct(w.reg, reg);
  }

  lemma ResetTracks(s: State, value: nat, reg: Reg)
    requires |s.cache| == REG_NUM && Resets(STATUS0, value)
    ensures if reg == STATUS0 then Holds(Step(s, Write(STATUS0, value)), reg, value)
            else SlotOf(reg) !in Step(s, Write(STATUS0, value)).chip.regs
  {
    ResetClears(s.chip, value);
    SlotsAreDistinct(STATUS0, reg);
  }

  lemma StepTracks(s: State, w: Write, reg: Reg)
    requires |s.cache| == REG_NUM
    requires w.reg < REG_NUM ==> KeepsSelector(w.reg, w.value)
    ensures if w.reg == reg then Holds(Step(s, w), reg, w.value)
            else if Resets(w.reg, w.value) then SlotOf(reg) !in Step(s, w).chip.regs
            else Untouched(s, Step(s, w), reg)
  {
    if w.reg < REG_NUM {
      if Resets(w.reg, w.value) {
        ResetTracks(s, w.value, reg);
      } else {
        WriteLands(s.chip, w.reg, w.value);
        LandTracks(s, w, reg);
      }
    }
  }

  lemma UntouchedKeeps(s: State, t: State, u: State, reg: Reg, value: nat)
    requires |s.cache| == REG_NUM && |t.cache| == REG_NUM && |u.cache| == REG_NUM
    requires Untouched(t, u, reg)
    ensures Untouched(s, t, reg) ==> Untouched(s, u, reg)
    ensures Holds(t, reg, value) ==> Holds(u, reg, value)
  {
  }

  /** After any sequence of writes, resets included: a register written since the last reset holds
      the payload of the value last written, as its cache entry does; any other is back at its
      default if there was a reset, and unchanged if there was none. */
  lemma {:induction false} CacheTracksChip(s: State, ws: seq<Write>, reg: Reg)
    requires |s.cache| == REG_NUM && AllKeepSelector(ws)
    ensures if Live(reg, ws) then Holds(Run(s, ws), reg, LastValue(reg, ws))
            else if WasReset(ws) then SlotOf(reg) !in Run(s, ws).chip.regs
            else Untouched(s, Run(s, ws), reg)
    decreases |ws|
  {
    if ws != [] {
      var before, w := ws[..|ws| - 1], ws[|ws| - 1];
      CacheTracksChip(s, before, reg);
      StepTracks(Run(s, before), w, reg);
      if w.reg != reg && !Resets(w.reg, w.value) {
        UntouchedKeeps(s, Run(s, before), Run(s, ws), reg, if Live(reg, before) then LastValue(reg, before) else 0);
      }
    }
  }

  /** A reset is forgotten by the cache: for every other register it still answers with the value
      the chip has lost. */
  lemma ResetLeavesCacheStale(s: State, ws: seq<Write>, value: nat, reg: Reg)
    requires |s.cache| == REG_NUM && Resets(STATUS0, value) && reg != STATUS0
    ensures SlotOf(reg) !in Run(s, ws + [Write(STATUS0, value)]).chip.regs
    ensures Run(s, ws + [Write(STATUS0, value)]).cache[reg] == Run(s, ws).cache[reg]
  {
    assert (ws + [Write(STATUS0, value)])[..|ws|] == ws;
    ResetClears(Run(s, ws).chip, value);
    SlotsAreDistinct(STATUS0, reg);
  }

  /** The chip register is the payload of the cache entry. */
  predicate Agrees(s: State, reg: Reg)
    requires |s.cache| == REG_NUM
  {
    SlotOf(reg) in s.chip.regs && s.chip.regs[SlotOf(reg)] == s.cache[reg] as bv8 & PayloadMask(reg)
  }

  /** The chip register is back at its default and the cache entry is as it was. */
  predicate Forgotten(s: State, t: State, reg: Reg)
    requires |s.cache| == REG_NUM && |t.cache| == REG_NUM
  {
    SlotOf(reg) !in t.chip.regs && t.cache[reg] == s.cache[reg]
  }

  lemma LiveAgrees(s: State, ws: seq<Write>, reg: Reg)
    requires |s.cache| == REG_NUM && AllKeepSelector(ws) && Live(reg, ws)
    ensures Agrees(Run(s, ws), reg)
  {
    CacheTracksChip(s, ws, reg);
  }

  lemma AfterReset(s: State, ws: seq<Write>, reg: Reg)
    requires |s.cache| == REG_NUM && AllKeepSelector(ws) && WasReset(ws)
    ensures if Live(reg, ws) then Agrees(Run(s, ws), reg)
            else SlotOf(reg) !in Run(s, ws).chip.regs && (!Written(reg, ws) ==> Forgotten(s, Run(s, ws), reg))
  {
    CacheTracksChip(s, ws, reg);
    if !Written(reg, ws) {
      CacheKept(s, ws, reg);
    }
  }

  /** With a payload that fits its field, the cache entry is the chip register. */
  lemma CacheEqualsChip(s: State, ws: seq<Write>, reg: Reg)
    requires |s.cache| == REG_NUM && AllKeepSelector(ws)
    requires Live(reg, ws)
    ensures var s' := Run(s, ws);
            SlotOf(reg) in s'.chip.regs &&
            (s'.chip.regs[SlotOf(reg)] == s'.cache[reg] as bv8 <==> PayloadFits(reg, LastValue(reg, ws)))
  {
    CacheTracksChip(s, ws, reg);
    HeldEqual(Run(s, ws), reg, LastValue(reg, ws));
  }

  predicate PayloadFits(reg: Reg, value: nat) {
    Wire(value) & !PayloadMask(reg) == 0
  }

  lemma HeldEqual(s: State, reg: Reg, value: nat)
    requires |s.cache| == REG_NUM && Holds(s, reg, value)
    ensures s.chip.regs[SlotOf(reg)] == s.cache[reg] as bv8 <==> PayloadFits(reg, value)
  {
    MaskedEqual(Wire(value), PayloadMask(reg));
  }

  lemma MaskedEqual(b: bv8, mask: bv8)
    ensures b & mask == b <==> b & !mask == 0
  {
  }

  // ----- down to the wires -----

  function Commands(w: Write): seq<Frame> {
    if w.reg >= REG_NUM then [] else WriteFrames(w.reg, w.value)
  }

  function RunFrames(ws: seq<Write>): seq<Frame>
    decreases |ws|
  {
    if ws == [] then [] else
      RunFrames(ws[..|ws| - 1]) + Commands(ws[|ws| - 1])
  }

  lemma {:induction false} RunReceives(s: State, ws: seq<Write>)
    requires |s.cache| == REG_NUM
    ensures Run(s, ws).chip == ReceiveAll(s.chip, RunFrames(ws))
    decreases |ws|
  {
    if ws != [] {
      var last := |ws| - 1;
      var w := ws[last];
      RunReceives(s, ws[..last]);
      ReceiveConcat(s.chip, RunFrames(ws[..last]), Commands(w));
    }
  }

  /** The frames a listener picks up while the wires go through a trace. */
  function Heard(r: Receiver, t: seq<Lines>): seq<Frame> {
    var all := Listen(r, t).frames;
    if |all| < |r.frames| then [] else all[|r.frames|..]
  }

  lemma RunHeard(r: Receiver, ws: seq<Write>)
    requires RunFrames(ws) != []
    ensures Heard(r, FramesTrace(r.lines, RunFrames(ws))) == StaleFrames(r) + RunFrames(ws)
  {
    FramesArrive(r, RunFrames(ws));
    assert r.frames + StaleFrames(r) + RunFrames(ws) == r.frames + (StaleFrames(r) + RunFrames(ws));
  }

  lemma {:induction false} LiveSends(reg: Reg, ws: seq<Write>)
    requires Live(reg, ws)
    ensures RunFrames(ws) != []
    decreases |ws|
  {
    if ws[|ws| - 1].reg != reg {
      LiveSends(reg, ws[..|ws| - 1]);
    }
  }

  /** The whole chain. Whatever the pins, the receiver and the chip were, a half-received byte included:
      the chip that listens to the wires during any sequence of writes ends with every register written
      since the last reset equal to the payload of the cache. */
  lemma ChipOnTheWireTracksCache(r: Receiver, s: State, ws: seq<Write>, reg: Reg)
    requires |s.cache| == REG_NUM && AllKeepSelector(ws)
    requires Live(reg, ws)
    ensures Agrees(State(RunCache(s.cache, ws), ReceiveAll(s.chip, Heard(r, FramesTrace(r.lines, RunFrames(ws))))), reg)
  {
    LiveSends(reg, ws);
    RunHeard(r, ws);
    ReceiveConcat(s.chip, StaleFrames(r), RunFrames(ws));
    var stale := State(s.cache, ReceiveAll(s.chip, StaleFrames(r)));
    RunReceives(stale, ws);
    LiveAgrees(stale, ws, reg);
    RunCaches(stale, ws);
  }

  /** A chip on the wires agrees with the cache on every live register. */
  predicate ListenerAgrees(r: Receiver, s: State, ws: seq<Write>)
    requires |s.cache| == REG_NUM
  {
    var chip := ReceiveAll(s.chip, Heard(r, FramesTrace(r.lines, RunFrames(ws))));
    forall reg: Reg :: Live(reg, ws) ==> Agrees(State(RunCache(s.cache, ws), chip), reg)
  }

  lemma EveryLiveAgrees(r: Receiver, s: State, ws: seq<Write>)
    requires |s.cache| == REG_NUM && AllKeepSelector(ws)
    ensures ListenerAgrees(r, s, ws)
  {
    forall reg: Reg | Live(reg, ws)
      ensures Agrees(State(RunCache(s.cache, ws), ReceiveAll(s.chip, Heard(r, FramesTrace(r.lines, RunFrames(ws))))), reg)
    {
      ChipOnTheWireTracksCache(r, s, ws, reg);
    }
  }

  /** The cache alone; it does not depend on the chip. */
  function RunCache(cache: seq<u8>, ws: seq<Write>): (cache': seq<u8>)
    requires |cache| == REG_NUM
    ensures |cache'| == REG_NUM
    decreases |ws|
  {
    if ws == [] then cache else Cached(RunCache(cache, ws[..|ws| - 1]), ws[|ws| - 1])
  }

  lemma {:induction false} RunCaches(s: State, ws: seq<Write>)
    requires |s.cache| == REG_NUM
    ensures Run(s, ws).cache == RunCache(s.cache, ws)
    decreases |ws|
  {
    if ws != [] {
      RunCaches(s, ws[..|ws| - 1]);
    }
  }

  // ----- the volume control -----

  const VOLUME_MAX := 63

  /** The write `put` issues for a setting: louder is smaller in the register. */
  function VolumeWrite(setting: int): Write {
    Write(DATA00, (VOLUME_MAX - setting) % WORD)
  }

  /** The setting `get` reports for a cached register value. */
  function VolumeRead(cached: u8): int {
    VOLUME_MAX - cached
  }

  lemma WordThenByte(n: int)
    ensures n % WORD % 256 == n % 256
  {
    var k := n / WORD;
    assert n == n % WORD + k * WORD;
    assert n % 256 == (n % WORD + (k * 0x100_0000) * 256) % 256;
  }

  lemma VolumeCached(setting: int)
    ensures VolumeRead(Byte(VolumeWrite(setting).value)) == setting <==> -192 <= setting <= 63
  {
    WordThenByte(VOLUME_MAX - setting);
  }

  lemma VolumeKeepsSelector(setting: int)
    ensures KeepsSelector(DATA00, VolumeWrite(setting).value) <==> setting % 256 <= 63
  {
    VolumeByte(setting);
    SixBitValue(Byte(VolumeWrite(setting).value));
  }

  lemma VolumeByte(setting: int)
    ensures Byte(VolumeWrite(setting).value) < 64 <==> setting % 256 <= 63
  {
    WordThenByte(VOLUME_MAX - setting);
  }

  lemma SixBitValue(n: u8)
    ensures (n as bv8 & 0xC0) & !0x00 == 0 <==> n < 64
  {
  }

  lemma {:induction false} RunAppend(s: State, a: seq<Write>, b: seq<Write>)
    requires |s.cache| == REG_NUM
    ensures Run(s, a + b) == Run(Run(s, a), b)
    decreases |b|
  {
    if b == [] {
      assert a + b == a;
    } else {
      assert (a + b)[..|a + b| - 1] == a + b[..|b| - 1];
      RunAppend(s, a, b[..|b| - 1]);
    }
  }

  lemma {:induction false} CacheKept(s: State, ws: seq<Write>, reg: Reg)
    requires |s.cache| == REG_NUM && !Written(reg, ws)
    ensures Run(s, ws).cache[reg] == s.cache[reg]
    decreases |ws|
  {
    if ws != [] {
      WrittenLast(reg, ws);
      CacheKept(s, ws[..|ws| - 1], reg);
    }
  }

  lemma {:induction false} UnwrittenIsNotLive(reg: Reg, ws: seq<Write>)
    requires !Written(reg, ws)
    ensures !Live(reg, ws)
    decreases |ws|
  {
    if ws != [] {
      WrittenLast(reg, ws);
      UnwrittenIsNotLive(reg, ws[..|ws| - 1]);
    }
  }

  /** `get` after `put(setting)`, whatever was written before and whatever else was written
      since: it reports the setting exactly when the setting lies in -192..63. Within the advertised
      0..63 the chip's volume register holds its complement as well, exactly until a reset. */
  lemma VolumeRoundTrip(s: State, before: seq<Write>, setting: int, after: seq<Write>)
    requires |s.cache| == REG_NUM && !Written(DATA00, after)
    ensures var s' := Run(s, before + [VolumeWrite(setting)] + after);
            && (VolumeRead(s'.cache[DATA00]) == setting <==> -192 <= setting <= 63)
            && (0 <= setting <= 63 && AllKeepSelector(after) ==>
                  if WasReset(after) then SlotOf(DATA00) !in s'.chip.regs else VolumeIs(s'.chip, setting))
  {
    var w := VolumeWrite(setting);
    RunAppend(s, before + [w], after);
    RunAppend(s, before, [w]);
    var s0 := Run(s, before);
    assert [w][..0] == [];
    assert Run(s0, [w]) == Step(Run(s0, [w][..0]), w);
    var s1 := Step(s0, w);
    CacheKept(s1, after, DATA00);
    VolumeCached(setting);
    if 0 <= setting <= 63 && AllKeepSelector(after) {
      VolumeOnChip(s0, setting, after);
    }
  }

  predicate VolumeIs(c: Chip, setting: int)
    requires 0 <= setting <= 63
  {
    SlotOf(DATA00) in c.regs && c.regs[SlotOf(DATA00)] == (63 - setting) as bv8
  }

  lemma VolumeOnChip(s: State, setting: int, after: seq<Write>)
    requires |s.cache| == REG_NUM && 0 <= setting <= 63
    requires !Written(DATA00, after) && AllKeepSelector(after)
    ensures var chip := Run(Step(s, VolumeWrite(setting)), after).chip;
            if WasReset(after) then SlotOf(DATA00) !in chip.regs else VolumeIs(chip, setting)
  {
    var w := VolumeWrite(setting);
    var s1 := Step(s, w);
    VolumeKeepsSelector(setting);
    StepTracks(s, w, DATA00);
    UnwrittenIsNotLive(DATA00, after);
    CacheTracksChip(s1, after, DATA00);
    if !WasReset(after) {
      UntouchedKeeps(s1, s1, Run(s1, after), DATA00, w.value);
      HeldVolume(Run(s1, after), setting);
    }
  }

  lemma HeldVolume(s: State, setting: int)
    requires |s.cache| == REG_NUM && 0 <= setting <= 63
    requires Holds(s, DATA00, VolumeWrite(setting).value)
    ensures VolumeIs(s.chip, setting)
  {
    VolumePayload(setting);
  }

  lemma VolumePayload(setting: int)
    requires 0 <= setting <= 63
    ensures Wire(VolumeWrite(setting).value) & PayloadMask(DATA00) == (63 - setting) as bv8
  {
    SmallWord(63 - setting);
    SixBits(63 - setting);
  }

  lemma SmallWord(n: nat)
    requires n < 64
    ensures n % WORD == n
  {
  }

  lemma SixBits(n: nat)
    requires n < 64
    ensures Wire(n) & 0x3f == n as bv8
  {
  }

  /** Outside 0..63 (modulo 256) a volume write leaves the volume register for another one:
      some chip ends with something else in it than the write's payload. */
  lemma VolumeLandsIffInRange(setting: int)
    ensures (forall c: Chip :: Lands(c, DATA00, VolumeWrite(setting).value)) <==> setting % 256 <= 63
  {
    LandsIffProper(DATA00, VolumeWrite(setting).value);
    VolumeKeepsSelector(setting);
  }

  /** A volume of 64 goes to whatever extended register was addressed last. */
  lemma LoudVolumeMisses(c: Chip)
    ensures ReceiveAll(c, WriteFrames(DATA00, VolumeWrite(64).value)).regs == c.regs[Extended(c.ea) := 0x1f]
  {
    AllOnes();
    var f := Frame(DATA0_ADDR, 0xff);
    ReceiveTwo(c, f, f);
    var ones: bv8 := 0xff;
    assert ones & 0xC0 == 0xC0 && ones & 0x20 != 0 && ones & 0x1f == 0x1f;
  }

  lemma AllOnes()
    ensures WriteFrames(DATA00, VolumeWrite(64).value) == [Frame(DATA0_ADDR, 0xff)]
  {
    assert VolumeWrite(64).value == WORD - 1;
    assert Byte(WORD - 1) == 0xff;
    OrZero(0xff);
  }

  // ----- the driver -----

  /** What `uda1341_init_regs` writes. */
  const INIT_WRITES := [Write(STATUS0, 0x51), Write(STATUS1, 0x03), Write(DATA00, 0), Write(DATA01, 0), Write(DATA10, 0)]

  lemma InitKeepsSelectors()
    ensures AllKeepSelector(INIT_WRITES)
  {
    var b: bv8 := 0x51;
    assert (b & 0x80) & !0x00 == 0;
    var b': bv8 := 0x03;
    assert (b' & 0x80) & !0x80 == 0;
    var z: bv8 := 0;
    assert (z & 0xC0) & !0x00 == 0 && (z & 0xC0) & !0x40 == 0 && (z & 0xC0) & !0x80 == 0;
  }

  lemma LiveSnoc(reg: Reg, ws: seq<Write>, w: Write)
    ensures Live(reg, ws + [w]) <==> w.reg == reg || (!Resets(w.reg, w.value) && Live(reg, ws))
    ensures WasReset(ws + [w]) <==> Resets(w.reg, w.value) || WasReset(ws)
  {
    assert (ws + [w])[..|ws|] == ws;
  }

  lemma InitIsLive(reg: Reg)
    ensures Live(reg, INIT_WRITES) <==> reg <= DATA10 || reg >= STATUS0
    ensures WasReset(INIT_WRITES)
  {
    var first: seq<Write> := [];
    var w0, w1, w2, w3, w4 := INIT_WRITES[0], INIT_WRITES[1], INIT_WRITES[2], INIT_WRITES[3], INIT_WRITES[4];
    LiveSnoc(reg, first, w0);
    LiveSnoc(reg, first + [w0], w1);
    LiveSnoc(reg, first + [w0] + [w1], w2);
    LiveSnoc(reg, first + [w0] + [w1] + [w2], w3);
    LiveSnoc(reg, first + [w0] + [w1] + [w2] + [w3], w4);
    var reset: bv8 := 0x51;
    assert IsResetByte(reset);
    assert INIT_WRITES == first + [w0] + [w1] + [w2] + [w3] + [w4];
  }

  lemma InitWritten(reg: Reg)
    ensures DATA10 < reg < STATUS0 ==> !Written(reg, INIT_WRITES)
  {
  }

  /** The initial writes reset the chip first. Whatever it held before, the five registers they
      write then agree with the cache, and the other seven are back at the chip's defaults, which
      the cache does not learn. */
  lemma InitAgrees(s: State, reg: Reg)
    requires |s.cache| == REG_NUM
    ensures if reg <= DATA10 || reg >= STATUS0 then Agrees(Run(s, INIT_WRITES), reg)
            else Forgotten(s, Run(s, INIT_WRITES), reg)
  {
    InitIsLive(reg);
    InitKeepsSelectors();
    InitWritten(reg);
    AfterReset(s, INIT_WRITES, reg);
  }

  lemma RunFramesSnoc(ws: seq<Write>, w: Write)
    ensures RunFrames(ws + [w]) == RunFrames(ws) + Commands(w)
  {
    assert (ws + [w])[..|ws|] == ws;
  }

  /** What the initial writes put on the wire. */
  lemma InitFrames()
    ensures RunFrames(INIT_WRITES)
         == [Frame(0x16, 0x51), Frame(0x16, 0x83), Frame(0x14, 0x00), Frame(0x14, 0x40), Frame(0x14, 0x80)]
  {
    var none: seq<Write> := [];
    var w0, w1, w2, w3, w4 := INIT_WRITES[0], INIT_WRITES[1], INIT_WRITES[2], INIT_WRITES[3], INIT_WRITES[4];
    RunFramesSnoc(none, w0);
    RunFramesSnoc(none + [w0], w1);
    RunFramesSnoc(none + [w0] + [w1], w2);
    RunFramesSnoc(none + [w0] + [w1] + [w2], w3);
    RunFramesSnoc(none + [w0] + [w1] + [w2] + [w3], w4);
    assert INIT_WRITES == none + [w0] + [w1] + [w2] + [w3] + [w4];
    PlainBytes(10, 0x51);
    PlainBytes(11, 0x03);
    PlainBytes(0, 0);
    PlainBytes(1, 0);
    PlainBytes(2, 0);
  }

  lemma OneMore(cache: seq<u8>, ws: seq<Write>, i: nat)
    requires |cache| == REG_NUM && i < |ws|
    ensures RunCache(cache, ws[..i + 1]) == Cached(RunCache(cache, ws[..i]), ws[i])
    ensures RunFrames(ws[..i + 1]) == RunFrames(ws[..i]) + Commands(ws[i])
  {
    assert ws[..i + 1][..i] == ws[..i];
  }

  lemma SendMore(before: seq<Lines>, start: Lines, sent: seq<Frame>, more: seq<Frame>)
    ensures before + FramesTrace(start, sent + more)
         == before + FramesTrace(start, sent) + FramesTrace(if sent == [] then start else ALL_HIGH, more)
  {
    FramesTraceConcat(start, sent, more);
    Assoc(before, FramesTrace(start, sent), FramesTrace(if sent == [] then start else ALL_HIGH, more));
  }

  lemma PairAppended(fs: seq<Frame>, f: Frame, g: Frame)
    ensures fs + [f] + [g] == fs + [f, g]
  {
  }

  class Codec {
    const port: GpioBank
    const link: L3Master
    const cache: array<u8>

    ghost predicate Valid()
      reads link, port
    {
      link.port == port && link.Valid() && cache.Length == REG_NUM
    }

    constructor (port: GpioBank)
      ensures Valid() && this.port == port && fresh(link) && fresh(cache)
      ensures cache[..] == [0x00, 0x40, 0x80, 0x04, 0x04, 0x04, 0x00, 0x00, 0x00, 0x00, 0x00, 0x83] && link.sent == []
    {
      this.port := port;
      link := new L3Master(port);
      cache := new u8[REG_NUM](i requires 0 <= i < REG_NUM => REG_DEFAULT[i]);
    }

    /** The codec cannot be read: the cache answers, and an unknown register gives (unsigned) -1. */
    method ReadReg(reg: nat) returns (value: nat)
      requires Valid()
      ensures value == if reg < 12 then cache[reg] else 0xffff_ffff
    {
      if reg >= REG_NUM {
        return WORD - 1;
      }
      return cache[reg];
    }

    method WriteReg(reg: nat, value: nat) returns (ret: int)
      requires Valid()
      modifies port, link, cache
      ensures Valid()
      ensures ret == if reg < 12 then 0 else -1
      ensures |old(cache[..])| == 12
      ensures cache[..] == if reg < 12 then old(cache[..])[reg := value % 256] else old(cache[..])
      ensures link.sent == old(link.sent) + Commands(Write(reg, value))
      ensures OtherPins(port.gpbdat) == old(OtherPins(port.gpbdat))
    {
      if reg >= REG_NUM {
        return -1;
      }
      cache[reg] := Byte(value);
      ghost var f0 := link.sent;
      if EA000 <= reg <= EA110 {
        link.Write(DATA0_ADDR, RegAddr(reg) | EXTADDR_PREFIX);
        link.Write(DATA0_ADDR, Wire(value) | EXTDATA_PREFIX);
        PairAppended(f0, WriteFrames(reg, value)[0], WriteFrames(reg, value)[1]);
      } else {
        link.Write(RegAddr(reg), Wire(value) | DataBit(reg));
      }
      return 0;
    }

    method WriteNext(ws: seq<Write>, i: nat, ghost sent: seq<Frame>, ghost before: seq<u8>)
      requires Valid() && i < |ws| && |before| == REG_NUM
      requires link.sent == sent + RunFrames(ws[..i]) && cache[..] == RunCache(before, ws[..i])
      modifies port, link, cache
      ensures Valid()
      ensures link.sent == sent + RunFrames(ws[..i + 1]) && cache[..] == RunCache(before, ws[..i + 1])
    {
      OneMore(before, ws, i);
      var _ := WriteReg(ws[i].reg, ws[i].value);
    }

    method WriteEach(ws: seq<Write>)
      requires Valid()
      modifies port, link, cache
      ensures Valid()
      ensures link.sent == old(link.sent) + RunFrames(ws)
      ensures |old(cache[..])| == REG_NUM && cache[..] == RunCache(old(cache[..]), ws)
    {
      ghost var sent, before := link.sent, cache[..];
      assert ws[..0] == [];
      for i := 0 to |ws|
        invariant Valid()
        invariant link.sent == sent + RunFrames(ws[..i]) && cache[..] == RunCache(before, ws[..i])
      {
        WriteNext(ws, i, sent, before);
      }
      assert ws[..|ws|] == ws;
    }

    /** Any sequence of writes is a run: the cache is the run's, the wires carry its frames, and a chip
        that listens, from whatever receiver and chip state, agrees on every register written since the
        last reset. */
    method WriteAll(ws: seq<Write>, ghost r: Receiver, ghost chip: Chip)
      requires Valid() && r.lines == Pins(port.gpbdat)
      modifies port, link, cache
      ensures Valid()
      ensures link.sent == old(link.sent) + RunFrames(ws)
      ensures port.trace == old(port.trace) + FramesTrace(r.lines, RunFrames(ws))
      ensures |old(cache[..])| == REG_NUM && cache[..] == RunCache(old(cache[..]), ws)
      ensures AllKeepSelector(ws) ==> ListenerAgrees(r, State(old(cache[..]), chip), ws)
    {
      SendMore(link.before, link.start, link.sent, RunFrames(ws));
      ghost var s := State(cache[..], chip);
      if AllKeepSelector(ws) {
        EveryLiveAgrees(r, s, ws);
      }
      WriteEach(ws);
    }

    /** Resets the chip and sets clock, format and volume, from whatever the wires and the chip were. */
    method InitRegs(ghost r: Receiver, ghost chip: Chip)
      requires Valid() && r.lines == Pins(port.gpbdat)
      modifies port, link, cache
      ensures Valid()
      ensures link.sent == old(link.sent)
                + [Frame(0x16, 0x51), Frame(0x16, 0x83), Frame(0x14, 0x00), Frame(0x14, 0x40), Frame(0x14, 0x80)]
      ensures |old(cache[..])| == REG_NUM && ListenerAgrees(r, State(old(cache[..]), chip), INIT_WRITES)
    {
      InitFrames();
      InitKeepsSelectors();
      WriteAll(INIT_WRITES, r, chip);
    }

    method GetVol() returns (left: int, right: int)
      requires Valid()
      ensures left == right == 63 - (cache[0] as int)
    {
      var value := ReadReg(DATA00);
      left := VOLUME_MAX - value;
      right := left;
    }

    /** Only channel 0 counts. */
    method PutVol(left: int, right: int)
      requires Valid()
      modifies port, link, cache
      ensures Valid()
      ensures cache[..] == old(cache[..])[0 := (63 - left) % 0x1_0000_0000 % 256]
      ensures link.sent == old(link.sent) + Commands(VolumeWrite(left))
      ensures OtherPins(port.gpbdat) == old(OtherPins(port.gpbdat))
    {
      var val := (VOLUME_MAX - left) % WORD;
      var _ := WriteReg(DATA00, val);
    }
  }
}
