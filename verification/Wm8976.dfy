/** The WM8976 codec driver: nine-bit write-only registers, shadowed by a byte-wide cache. */
module Wm8976 {
  import opened Arith
  import opened Gpio
  import opened ThreeWire
  import opened Words

  const REG_NUM := 58
  const RESET := 0
  const LEFT_VOLUME := 52
  const RIGHT_VOLUME := 53
  const UPDATE := 0x100

  type Reg = r: nat | r < REG_NUM

  // ----- the chip -----

  /** Register contents by number; a register is absent while it holds its reset value. */
  type Chip = map<nat, nat>

  /** A word is seven bits of register number and nine of data. Writing the reset register
      puts every other register back to its default. */
  function Receive(c: Chip, word: u16): Chip {
    if word / 512 == RESET then map[] else c[word / 512 := word % 512]
  }

  function ReceiveAll(c: Chip, ws: seq<u16>): Chip
    decreases |ws|
  {
    if ws == [] then c else Receive(ReceiveAll(c, ws[..|ws| - 1]), ws[|ws| - 1])
  }

  // ----- writes -----

  datatype Write = Write(reg: nat, value: nat)

  function Nine(value: nat): nat {
    value % 512
  }

  function Byte(value: nat): u8 {
    value % 256
  }

  /** `(reg << 9) | (value & 0x1ff)`. */
  function WordOf(reg: Reg, value: nat): u16 {
    reg * 512 + Nine(value)
  }

  function WordsOf(w: Write): seq<u16> {
    if w.reg >= REG_NUM then [] else [WordOf(w.reg, w.value)]
  }

  function RunWords(ws: seq<Write>): seq<u16>
    decreases |ws|
  {
    if ws == [] then [] else RunWords(ws[..|ws| - 1]) + WordsOf(ws[|ws| - 1])
  }

  /** The cache entry is assigned the value, which keeps eight of its bits. */
  function RunCache(cache: seq<u8>, ws: seq<Write>): (cache': seq<u8>)
    requires |cache| == REG_NUM
    ensures |cache'| == REG_NUM
    decreases |ws|
  {
    if ws == [] then cache else
      var w := ws[|ws| - 1];
      var c := RunCache(cache, ws[..|ws| - 1]);
      if w.reg >= REG_NUM then c else c[w.reg := Byte(w.value)]
  }

  /** The register was written and the chip has not been reset since. */
  predicate Live(reg: Reg, ws: seq<Write>)
    decreases |ws|
  {
    ws != [] &&
    (ws[|ws| - 1].reg == reg || (ws[|ws| - 1].reg != RESET && Live(reg, ws[..|ws| - 1])))
  }

  function LastValue(reg: Reg, ws: seq<Write>): nat
    requires Live(reg, ws)
    decreases |ws|
  {
    if ws[|ws| - 1].reg == reg then ws[|ws| - 1].value else LastValue(reg, ws[..|ws| - 1])
  }

  lemma {:induction false} ReceiveConcat(c: Chip, a: seq<u16>, b: seq<u16>)
    ensures ReceiveAll(c, a + b) == ReceiveAll(ReceiveAll(c, a), b)
    decreases |b|
  {
    if b == [] {
      assert a + b == a;
    } else {
      assert (a + b)[..|a + b| - 1] == a + b[..|b| - 1];
      ReceiveConcat(c, a, b[..|b| - 1]);
    }
  }

  lemma ReceiveOne(c: Chip, word: u16)
    ensures ReceiveAll(c, [word]) == Receive(c, word)
  {
    assert [word][..0] == [];
    assert ReceiveAll(c, []) == c;
  }

  lemma WordFields(reg: Reg, value: nat)
    ensures WordOf(reg, value) / 512 == reg && WordOf(reg, value) % 512 == Nine(value)
  {
  }

  /** What a register write means to the chip: out of range nothing is sent, register 0
      resets, and any other register takes nine bits. */
  function ChipWrite(c: Chip, w: Write): Chip {
    if w.reg >= REG_NUM then c
    else if w.reg == RESET then map[]
    else c[w.reg := Nine(w.value)]
  }

  lemma WordsWrite(c: Chip, w: Write)
    ensures ReceiveAll(c, WordsOf(w)) == ChipWrite(c, w)
  {
    if w.reg < REG_NUM {
      ReceiveOne(c, WordOf(w.reg, w.value));
      WordFields(w.reg, w.value);
    }
  }

  lemma RunChipStep(c: Chip, ws: seq<Write>)
    requires ws != []
    ensures RunChip(c, ws) == ChipWrite(RunChip(c, ws[..|ws| - 1]), ws[|ws| - 1])
  {
    ReceiveConcat(c, RunWords(ws[..|ws| - 1]), WordsOf(ws[|ws| - 1]));
    WordsWrite(RunChip(c, ws[..|ws| - 1]), ws[|ws| - 1]);
  }

  /** The chip after the words of a sequence of writes. */
  function RunChip(c: Chip, ws: seq<Write>): Chip {
    ReceiveAll(c, RunWords(ws))
  }

  predicate Written(reg: nat, ws: seq<Write>)
    decreases |ws|
  {
    ws != [] && (ws[|ws| - 1].reg == reg || Written(reg, ws[..|ws| - 1]))
  }

  predicate SameIn(c: Chip, d: Chip, reg: Reg) {
    (reg in c <==> reg in d) && (reg in c ==> c[reg] == d[reg])
  }

  /** After any sequence of writes to any chip, resets included: a live register holds the low nine
      bits last written, of which its cache entry has the low eight; any other is back at its default
      if there was a reset, and unchanged if there was none. */
  lemma {:induction false} CacheTracksChip(c: Chip, cache: seq<u8>, ws: seq<Write>, reg: Reg)
    requires |cache| == REG_NUM && reg != RESET
    ensures var chip := RunChip(c, ws);
            if Live(reg, ws) then reg in chip && chip[reg] == Nine(LastValue(reg, ws))
            else if Written(RESET, ws) then reg !in chip
            else SameIn(c, chip, reg)
    ensures Live(reg, ws) ==> RunCache(cache, ws)[reg] == Byte(LastValue(reg, ws))
    decreases |ws|
  {
    if ws != [] {
      CacheTracksChip(c, cache, ws[..|ws| - 1], reg);
      RunChipStep(c, ws);
    }
  }

  /** So chip and cache agree modulo 256 on every live register. */
  lemma CacheIsLowByte(c: Chip, cache: seq<u8>, ws: seq<Write>, reg: Reg)
    requires |cache| == REG_NUM && reg != RESET && Live(reg, ws)
    ensures reg in RunChip(c, ws) && RunCache(cache, ws)[reg] == RunChip(c, ws)[reg] % 256
  {
    CacheTracksChip(c, cache, ws, reg);
    ByteOfNine(LastValue(reg, ws));
  }

  lemma ByteOfNine(value: nat)
    ensures Byte(value) == Nine(value) % 256
    ensures Byte(value) == Nine(value) <==> Nine(value) < 256
  {
    var nine := Nine(value);
    assert value == (2 * (value / 512) + nine / 256) * 256 + nine % 256;
    UniqueRemainder(value, 2 * (value / 512) + nine / 256, 256, nine % 256);
  }

  /** The cache is the chip register itself exactly when the ninth bit was not set. */
  lemma CacheEqualsChip(c: Chip, cache: seq<u8>, ws: seq<Write>, reg: Reg)
    requires |cache| == REG_NUM && reg != RESET && Live(reg, ws)
    ensures reg in RunChip(c, ws)
    ensures RunCache(cache, ws)[reg] == RunChip(c, ws)[reg] <==> Nine(LastValue(reg, ws)) < 256
  {
    CacheTracksChip(c, cache, ws, reg);
    ByteOfNine(LastValue(reg, ws));
  }

  /** A reset is forgotten by the cache: after any writes that end in a reset, it still
      answers with values the chip has lost. */
  lemma ResetLeavesCacheStale(c: Chip, cache: seq<u8>, ws: seq<Write>, value: nat, reg: Reg)
    requires |cache| == REG_NUM && reg != RESET
    ensures reg !in RunChip(c, ws + [Write(RESET, value)])
    ensures RunCache(cache, ws + [Write(RESET, value)])[reg] == RunCache(cache, ws)[reg]
  {
    assert (ws + [Write(RESET, value)])[..|ws|] == ws;
    CacheTracksChip(c, cache, ws + [Write(RESET, value)], reg);
  }

  /** The words a listener takes while the wires go through a trace. */
  function Heard(r: Receiver, t: seq<Lines>): seq<u16> {
    var all := Listen(r, t).words;
    if |all| < |r.words| then [] else all[|r.words|..]
  }

  lemma RunHeard(r: Receiver, ws: seq<Write>)
    requires RunWords(ws) != []
    ensures Heard(r, WordsTrace(r.lines, RunWords(ws))) == StaleWords(r) + RunWords(ws)
  {
    WordsArrive(r, RunWords(ws));
    assert r.words + StaleWords(r) + RunWords(ws) == r.words + (StaleWords(r) + RunWords(ws));
  }

  lemma {:induction false} LiveSends(reg: Reg, ws: seq<Write>)
    requires Live(reg, ws)
    ensures RunWords(ws) != []
    decreases |ws|
  {
    if ws[|ws| - 1].reg != reg {
      LiveSends(reg, ws[..|ws| - 1]);
    }
  }

  /** The whole chain: whatever the pins were, and whatever the chip had shifted, taken and held before,
      listening to the wires gives every live register the low bits of its cache entry. */
  lemma ChipOnTheWireTracksCache(r: Receiver, c: Chip, cache: seq<u8>, ws: seq<Write>, reg: Reg)
    requires |cache| == REG_NUM && reg != RESET && Live(reg, ws)
    ensures var chip := ReceiveAll(c, Heard(r, WordsTrace(r.lines, RunWords(ws))));
            reg in chip && chip[reg] % 256 == RunCache(cache, ws)[reg]
  {
    LiveSends(reg, ws);
    RunHeard(r, ws);
    ReceiveConcat(c, StaleWords(r), RunWords(ws));
    CacheIsLowByte(ReceiveAll(c, StaleWords(r)), cache, ws, reg);
  }

  /** A chip on the wires agrees with the cache modulo 256 on every live register. */
  predicate ListenerAgrees(r: Receiver, c: Chip, cache: seq<u8>, ws: seq<Write>)
    requires |cache| == REG_NUM
  {
    var chip := ReceiveAll(c, Heard(r, WordsTrace(r.lines, RunWords(ws))));
    forall reg: Reg :: reg != RESET && Live(reg, ws) ==> reg in chip && chip[reg] % 256 == RunCache(cache, ws)[reg]
  }

  lemma EveryLiveAgrees(r: Receiver, c: Chip, cache: seq<u8>, ws: seq<Write>)
    requires |cache| == REG_NUM
    ensures ListenerAgrees(r, c, cache, ws)
  {
    var chip := ReceiveAll(c, Heard(r, WordsTrace(r.lines, RunWords(ws))));
    forall reg: Reg | reg != RESET && Live(reg, ws)
      ensures reg in chip && chip[reg] % 256 == RunCache(cache, ws)[reg]
    {
      ChipOnTheWireTracksCache(r, c, cache, ws, reg);
    }
  }

  // ----- the volume control -----

  /** `(1 << 8) | setting`, as an unsigned int. */
  function WithUpdate(setting: int): nat {
    var val := setting % WORD;
    if val / UPDATE % 2 == 1 then val else val + UPDATE
  }

  function VolumeWrites(left: int, right: int): seq<Write> {
    [Write(LEFT_VOLUME, WithUpdate(left)), Write(RIGHT_VOLUME, WithUpdate(right))]
  }

  function VolumeRead(cached: u8): nat {
    cached % 64
  }

  lemma WithUpdateBits(setting: int)
    ensures Byte(WithUpdate(setting)) == setting % 256
    ensures Nine(WithUpdate(setting)) == 256 + setting % 256
  {
    var val := setting % WORD;
    var low, bit, rest := val % 256, val / 256 % 2, val / 256 / 2;
    assert val / 256 == 2 * rest + bit;
    assert val == 512 * rest + 256 * bit + low;
    assert WithUpdate(setting) == 512 * rest + 256 + low;
    UniqueRemainder(setting, setting / WORD * 0x100_0000 + val / 256, 256, low);
    UniqueRemainder(WithUpdate(setting), 2 * rest + 1, 256, low);
    UniqueRemainder(WithUpdate(setting), rest, 512, 256 + low);
  }

  lemma {:induction false} CacheKept(cache: seq<u8>, a: seq<Write>, b: seq<Write>, reg: Reg)
    requires |cache| == REG_NUM && !Written(reg, b)
    ensures RunCache(cache, a + b)[reg] == RunCache(cache, a)[reg]
    decreases |b|
  {
    if b == [] {
      assert a + b == a;
    } else {
      assert (a + b)[..|a + b| - 1] == a + b[..|b| - 1];
      CacheKept(cache, a, b[..|b| - 1], reg);
    }
  }

  /** `get` after `put(left, right)`, whatever was written before and whatever but the two
      volume registers was written since: each channel reports its own setting, exactly
      when that setting lies in 0..63. */
  lemma VolumeRoundTrip(cache: seq<u8>, before: seq<Write>, left: int, right: int, after: seq<Write>)
    requires |cache| == REG_NUM && !Written(LEFT_VOLUME, after) && !Written(RIGHT_VOLUME, after)
    ensures var c := RunCache(cache, before + VolumeWrites(left, right) + after);
            && (VolumeRead(c[LEFT_VOLUME]) == left <==> 0 <= left <= 63)
            && (VolumeRead(c[RIGHT_VOLUME]) == right <==> 0 <= right <= 63)
  {
    var ws := before + VolumeWrites(left, right);
    CacheKept(cache, ws, after, LEFT_VOLUME);
    CacheKept(cache, ws, after, RIGHT_VOLUME);
    VolumesCached(cache, before, left, right);
    WithUpdateBits(left);
    WithUpdateBits(right);
    SixBits(left);
    SixBits(right);
  }

  lemma VolumesCached(cache: seq<u8>, before: seq<Write>, left: int, right: int)
    requires |cache| == REG_NUM
    ensures var c := RunCache(cache, before + VolumeWrites(left, right));
            && c[LEFT_VOLUME] == Byte(WithUpdate(left))
            && c[RIGHT_VOLUME] == Byte(WithUpdate(right))
  {
    var ws := before + VolumeWrites(left, right);
    assert ws[..|ws| - 1] == before + [VolumeWrites(left, right)[0]];
    assert ws[..|ws| - 1][..|before|] == before;
  }

  lemma SixBits(setting: int)
    ensures VolumeRead(setting % 256) == setting <==> 0 <= setting <= 63
  {
  }

  lemma {:induction false} LiveKept(a: seq<Write>, b: seq<Write>, reg: Reg)
    requires Live(reg, a) && !Written(reg, b) && !Written(RESET, b)
    ensures Live(reg, a + b) && LastValue(reg, a + b) == LastValue(reg, a)
    decreases |b|
  {
    if b == [] {
      assert a + b == a;
    } else {
      assert (a + b)[..|a + b| - 1] == a + b[..|b| - 1];
      LiveKept(a, b[..|b| - 1], reg);
    }
  }

  lemma VolumesLive(before: seq<Write>, left: int, right: int)
    ensures var ws := before + VolumeWrites(left, right);
            && Live(LEFT_VOLUME, ws) && LastValue(LEFT_VOLUME, ws) == WithUpdate(left)
            && Live(RIGHT_VOLUME, ws) && LastValue(RIGHT_VOLUME, ws) == WithUpdate(right)
  {
    var ws := before + VolumeWrites(left, right);
    assert ws[..|ws| - 1] == before + [VolumeWrites(left, right)[0]];
  }

  /** The chip keeps the two channels apart as well, each with the update bit, until a volume
      register or the reset register is written again. */
  lemma VolumeOnChip(c: Chip, before: seq<Write>, left: int, right: int, after: seq<Write>)
    requires !Written(LEFT_VOLUME, after) && !Written(RIGHT_VOLUME, after) && !Written(RESET, after)
    ensures var chip := RunChip(c, before + VolumeWrites(left, right) + after);
            && 52 in chip && chip[52] == 0x100 + left % 256
            && 53 in chip && chip[53] == 0x100 + right % 256
  {
    var ws := before + VolumeWrites(left, right);
    VolumesLive(before, left, right);
    LiveKept(ws, after, LEFT_VOLUME);
    LiveKept(ws, after, RIGHT_VOLUME);
    var cache: seq<u8> := seq(REG_NUM, _ => 0);
    CacheTracksChip(c, cache, ws + after, LEFT_VOLUME);
    CacheTracksChip(c, cache, ws + after, RIGHT_VOLUME);
    WithUpdateBits(left);
    WithUpdateBits(right);
  }

  /** On the wire both volume words carry the update bit, whatever the setting. */
  lemma VolumeWordsUpdate(left: int, right: int)
    ensures var words := RunWords(VolumeWrites(left, right));
            && |words| == 2
            && words[0] == 0x6900 + left % 256
            && words[1] == 0x6b00 + right % 256
  {
    var ws := VolumeWrites(left, right);
    assert ws[..1] == [ws[0]] && ws[..1][..0] == [];
    assert RunWords([]) == [];
    WithUpdateBits(left);
    WithUpdateBits(right);
  }

  // ----- the driver -----

  lemma OneMore(cache: seq<u8>, ws: seq<Write>, i: nat)
    requires |cache| == REG_NUM && i < |ws|
    ensures RunCache(cache, ws[..i + 1])
         == (if ws[i].reg < REG_NUM then RunCache(cache, ws[..i])[ws[i].reg := Byte(ws[i].value)] else RunCache(cache, ws[..i]))
    ensures RunWords(ws[..i + 1]) == RunWords(ws[..i]) + WordsOf(ws[i])
  {
    assert ws[..i + 1][..i] == ws[..i];
  }

  /** What `wm8976_init_regs` writes: first the reset. */
  const INIT_WRITES := [Write(0, 0), Write(0x03, 0x6f), Write(0x01, 0x1f), Write(0x02, 0x185), Write(0x06, 0),
                        Write(0x04, 0x10), Write(0x2b, 0x10), Write(0x09, 0x50), Write(0x0d, 0x21), Write(0x07, 0x01)]

  const INIT_WORDS: seq<u16> := [0x0000, 0x066f, 0x021f, 0x0585, 0x0c00, 0x0810, 0x5610, 0x1250, 0x1a21, 0x0e01]

  lemma {:induction false} WordByWord(ws: seq<Write>, words: seq<u16>)
    requires |ws| == |words| && forall i :: 0 <= i < |ws| ==> WordsOf(ws[i]) == [words[i]]
    ensures RunWords(ws) == words
    decreases |ws|
  {
    if ws != [] {
      WordByWord(ws[..|ws| - 1], words[..|ws| - 1]);
    }
  }

  lemma InitWord(i: nat)
    requires i < 10
    ensures WordsOf(INIT_WRITES[i]) == [INIT_WORDS[i]]
  {
  }

  lemma InitWords()
    ensures RunWords(INIT_WRITES) == INIT_WORDS
  {
    forall i | 0 <= i < 10
      ensures WordsOf(INIT_WRITES[i]) == [INIT_WORDS[i]]
    {
      InitWord(i);
    }
    WordByWord(INIT_WRITES, INIT_WORDS);
  }

  class Codec {
    const port: GpioBank
    const link: ThreeWireMaster
    const cache: array<u8>

    ghost predicate Valid()
      reads link, port
    {
      link.port == port && link.Valid() && cache.Length == REG_NUM
    }

    constructor (port: GpioBank)
      ensures Valid() && this.port == port && fresh(link) && fresh(cache)
      ensures cache[..] == seq(REG_NUM, _ => 0) && link.sent == []
    {
      this.port := port;
      link := new ThreeWireMaster(port);
      cache := new u8[REG_NUM](_ => 0);
    }

    method ReadReg(reg: nat) returns (value: nat)
      requires Valid()
      ensures value == if reg < 58 then cache[reg] else 0xffff_ffff
    {
      if reg >= REG_NUM {
        return WORD - 1;
      }
      return cache[reg];
    }

    method WriteReg(reg: nat, value: nat) returns (ret: int)
      requires Valid()
      modifies port, link, cache
      ensures Valid()
      ensures ret == if reg < 58 then 0 else -1
      ensures cache[..] == if reg < 58 then old(cache[..])[reg := value % 256] else old(cache[..])
      ensures link.sent == old(link.sent) + WordsOf(Write(reg, value))
      ensures link.sent == old(link.sent) + if reg < 58 then [reg * 512 + value % 512] else []
      ensures OtherPins(port.gpbdat) == old(OtherPins(port.gpbdat))
    {
      if reg >= REG_NUM {
        return -1;
      }
      cache[reg] := Byte(value);
      link.Write(WordOf(reg, value));
      return 0;
    }

    method WriteNext(ws: seq<Write>, i: nat, ghost sent: seq<u16>, ghost before: seq<u8>)
      requires Valid() && i < |ws| && |before| == REG_NUM
      requires link.sent == sent + RunWords(ws[..i]) && cache[..] == RunCache(before, ws[..i])
      modifies port, link, cache
      ensures Valid()
      ensures link.sent == sent + RunWords(ws[..i + 1]) && cache[..] == RunCache(before, ws[..i + 1])
    {
      OneMore(before, ws, i);
      var _ := WriteReg(ws[i].reg, ws[i].value);
    }

    method WriteEach(ws: seq<Write>)
      requires Valid()
      modifies port, link, cache
      ensures Valid()
      ensures link.sent == old(link.sent) + RunWords(ws)
      ensures |old(cache[..])| == REG_NUM && cache[..] == RunCache(old(cache[..]), ws)
    {
      ghost var sent, before := link.sent, cache[..];
      assert ws[..0] == [];
      for i := 0 to |ws|
        invariant Valid()
        invariant link.sent == sent + RunWords(ws[..i]) && cache[..] == RunCache(before, ws[..i])
      {
        WriteNext(ws, i, sent, before);
      }
      assert ws[..|ws|] == ws;
    }

    /** Any sequence of writes is a run: the cache is the run's, the wires carry its words, and a chip
        that listens, from whatever receiver and chip state, agrees on every register written since the
        last reset. */
    method WriteAll(ws: seq<Write>, ghost r: Receiver, ghost chip: Chip)
      requires Valid() && r.lines == Pins(port.gpbdat)
      modifies port, link, cache
      ensures Valid()
      ensures link.sent == old(link.sent) + RunWords(ws)
      ensures port.trace == old(port.trace) + WordsTrace(r.lines, RunWords(ws))
      ensures |old(cache[..])| == REG_NUM && cache[..] == RunCache(old(cache[..]), ws)
      ensures ListenerAgrees(r, chip, old(cache[..]), ws)
    {
      SendMore(link.before, link.start, link.sent, RunWords(ws));
      EveryLiveAgrees(r, chip, cache[..], ws);
      WriteEach(ws);
    }

    /** Resets the chip and turns its outputs on. */
    method InitRegs(ghost r: Receiver, ghost chip: Chip)
      requires Valid() && r.lines == Pins(port.gpbdat)
      modifies port, link, cache
      ensures Valid()
      ensures link.sent == old(link.sent) + [0x0000, 0x066f, 0x021f, 0x0585, 0x0c00,
                                             0x0810, 0x5610, 0x1250, 0x1a21, 0x0e01]
      ensures |old(cache[..])| == REG_NUM && ListenerAgrees(r, chip, old(cache[..]), INIT_WRITES)
    {
      InitWords();
      WriteAll(INIT_WRITES, r, chip);
    }

    method GetVol() returns (left: int, right: int)
      requires Valid()
      ensures left == cache[52] % 64 && right == cache[53] % 64
    {
      var l := ReadReg(LEFT_VOLUME);
      left := l % 64;
      var r := ReadReg(RIGHT_VOLUME);
      right := r % 64;
    }

    method PutVol(left: int, right: int)
      requires Valid()
      modifies port, link, cache
      ensures Valid()
      ensures cache[..] == old(cache[..])[52 := left % 256][53 := right % 256]
      ensures link.sent == old(link.sent) + [0x6900 + left % 256] + [0x6b00 + right % 256]
      ensures OtherPins(port.gpbdat) == old(OtherPins(port.gpbdat))
    {
      WithUpdateBits(left);
      WithUpdateBits(right);
      var _ := WriteReg(LEFT_VOLUME, WithUpdate(left));
      var _ := WriteReg(RIGHT_VOLUME, WithUpdate(right));
    }
  }
}
