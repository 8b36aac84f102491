/** The playback DMA ring: period by period through one buffer, driven by prepare, trigger and
    the completion interrupt. This module is the state machine; PlaybackDma holds the driver. */
module DmaRing {
  import opened Arith

  const BUF_MAX := 0x2_0000

  datatype Command = Start | Resume | PauseRelease | Stop | Suspend | PausePush | Unknown

  predicate Starts(cmd: Command) {
    cmd.Start? || cmd.Resume? || cmd.PauseRelease?
  }

  predicate Stops(cmd: Command) {
    cmd.Stop? || cmd.Suspend? || cmd.PausePush?
  }

  /** The driver's record and the DMA channel. `on`: the channel is transferring; it turns itself
      off at the end of a period. `prepared`: a first period was loaded, for sizes as the core
      promises them. `unplayed`: the period loaded has not been transferred yet. `pending`: a
      completion interrupt is waiting. The rest is history since the last prepare:
      `loads` the source addresses loaded, `played` those transferred to the end, `lag` the
      completion interrupts that loaded nothing, and `lags` its value at each load. */
  datatype Dma = Dma(
    bufferSize: nat, periodSize: nat, phyAddr: nat, dmaOfs: nat, running: bool, prepared: bool,
    on: bool, unplayed: bool, pending: bool,
    loads: seq<nat>, played: seq<nat>, lag: nat, lags: seq<nat>)

  /** What the ALSA core guarantees of the sizes it passes: whole half-words, whole periods,
      no more than the driver allocated. */
  predicate GoodParams(bufferSize: nat, periodSize: nat) {
    && periodSize > 0 && periodSize % 2 == 0
    && 0 < bufferSize <= BUF_MAX && bufferSize % periodSize == 0
  }

  // ----- the operations -----

  function LoadPeriod(s: Dma): Dma {
    s.(loads := s.loads + [s.phyAddr + s.dmaOfs], lags := s.lags + [s.lag], unplayed := true)
  }

  function Prepare(s: Dma): Dma {
    LoadPeriod(Rewound(s))
  }

  /** The record reset, and a new history begun. */
  function Rewound(s: Dma): Dma {
    s.(dmaOfs := 0, running := false, prepared := GoodParams(s.bufferSize, s.periodSize),
       loads := [], played := [], lag := 0, lags := [])
  }

  function Trigger(s: Dma, cmd: Command): Dma {
    if Starts(cmd) then s.(running := true, on := true)
    else if Stops(cmd) then s.(running := false, on := false)
    else s
  }

  /** The channel reaches the end of the period and turns itself off. */
  function Complete(s: Dma): Dma {
    s.(on := false, unplayed := false, pending := true,
       played := if s.loads == [] then s.played else s.played + [s.loads[|s.loads| - 1]])
  }

  function Advance(s: Dma): nat {
    if s.dmaOfs + s.periodSize >= s.bufferSize then 0 else s.dmaOfs + s.periodSize
  }

  /** The interrupt handler. `drained`: on hearing that a period has elapsed, the core found
      nothing more to play and called trigger(STOP) from within. */
  function Irq(s: Dma, drained: bool): Dma {
    var told := if drained then Trigger(Acknowledge(s), Command.Stop) else Acknowledge(s);
    Continue(told)
  }

  function Acknowledge(s: Dma): Dma {
    s.(dmaOfs := Advance(s), pending := false)
  }

  function Continue(s: Dma): Dma {
    if s.running then LoadPeriod(s).(on := true) else s.(lag := s.lag + 1)
  }

  // ----- runs -----

  datatype Step =
    | HwParams(bufferSize: nat, periodSize: nat)
    | PrepareStep
    | TriggerStep(cmd: Command)
    | CompleteStep
    | IrqStep(drained: bool)

  predicate Enabled(s: Dma, step: Step) {
    match step
    case CompleteStep => s.on
    case IrqStep(_) => s.pending
    case _ => true
  }

  function Apply(s: Dma, step: Step): Dma {
    match step
    case HwParams(b, p) => s.(bufferSize := b, periodSize := p, prepared := false)
    case PrepareStep => Prepare(s)
    case TriggerStep(cmd) => Trigger(s, cmd)
    case CompleteStep => Complete(s)
    case IrqStep(drained) => Irq(s, drained)
  }

  predicate ValidRun(s: Dma, steps: seq<Step>)
    decreases |steps|
  {
    steps == [] || (Enabled(s, steps[0]) && ValidRun(Apply(s, steps[0]), steps[1..]))
  }

  function Run(s: Dma, steps: seq<Step>): Dma
    decreases |steps|
  {
    if steps == [] then s else Run(Apply(s, steps[0]), steps[1..])
  }

  /** A driver just loaded: nothing configured, nothing going on. */
  function Initial(phyAddr: nat): Dma {
    Dma(0, 0, phyAddr, 0, false, false, false, false, false, [], [], 0, [])
  }

  // ----- where the periods start, in every run -----

  /** The k-th period of the ring. */
  function Slot(s: Dma, k: nat): nat
    requires s.bufferSize > 0
  {
    k * s.periodSize % s.bufferSize
  }

  /** Once prepared, each load is its turn in the ring, moved on by one period for every
      completion interrupt that loaded nothing, and the offset is where the last turn was. */
  predicate InRing(s: Dma) {
    && GoodParams(s.bufferSize, s.periodSize)
    && |s.loads| > 0 && |s.lags| == |s.loads|
    && s.dmaOfs == Slot(s, |s.loads| - 1 + s.lag)
    && (forall k :: 0 <= k < |s.loads| ==> s.loads[k] == s.phyAddr + Slot(s, k + s.lags[k]))
  }

  lemma ModuloIsMultiple(n: nat, p: nat, b: nat)
    requires p > 0 && b > 0 && b % p == 0
    ensures n * p % b == n % (b / p) * p
    ensures n * p % b % p == 0 && n * p % b + p <= b
  {
    var m := b / p;
    var q, r := n / m, n % m;
    UnpackProduct(n, q, m, r, p);
    UniqueRemainder(n * p, q, b, r * p);
    UniqueRemainder(r * p, r, p, 0);
  }

  lemma UnpackProduct(n: nat, q: nat, m: nat, r: nat, p: nat)
    requires n == q * m + r && r < m
    ensures n * p == q * (m * p) + r * p && r * p + p <= m * p
  {
    Distribute(q * m, r, p);
    assert q * m * p == q * (m * p);
    Distribute(m - r - 1, r + 1, p);
    Distribute(r, 1, p);
  }

  lemma Distribute(a: nat, b: nat, p: nat)
    ensures (a + b) * p == a * p + b * p
  {
  }

  /** The wrap in the interrupt handler is addition modulo the buffer size. */
  lemma AdvanceIsNextSlot(s: Dma, k: nat)
    requires GoodParams(s.bufferSize, s.periodSize) && s.dmaOfs == Slot(s, k)
    ensures Advance(s) == Slot(s, k + 1)
  {
    var b, p := s.bufferSize, s.periodSize;
    ModuloIsMultiple(k, p, b);
    var q := k * p / b;
    assert (k + 1) * p == k * p + p;
    assert k * p == q * b + s.dmaOfs;
    if s.dmaOfs + p >= b {
      UniqueRemainder((k + 1) * p, q + 1, b, 0);
    } else {
      UniqueRemainder((k + 1) * p, q, b, s.dmaOfs + p);
    }
  }

  /** Whenever the driver is prepared, it is in the ring. */
  predicate Inv(s: Dma) {
    s.prepared ==> InRing(s)
  }

  /** About to load, or to pass over, the next turn. */
  predicate AtNextTurn(s: Dma) {
    && GoodParams(s.bufferSize, s.periodSize) && |s.lags| == |s.loads|
    && s.dmaOfs == Slot(s, |s.loads| + s.lag)
    && (forall k :: 0 <= k < |s.loads| ==> s.loads[k] == s.phyAddr + Slot(s, k + s.lags[k]))
  }

  lemma LoadKeepsRing(s: Dma)
    requires AtNextTurn(s)
    ensures InRing(LoadPeriod(s))
  {
  }

  lemma ContinueKeepsRing(s: Dma)
    requires AtNextTurn(s) && |s.loads| > 0
    ensures InRing(Continue(s))
  {
    if s.running {
      LoadKeepsRing(s);
    }
  }

  lemma IrqKeepsRing(s: Dma, drained: bool)
    requires InRing(s)
    ensures InRing(Irq(s, drained))
  {
    AdvanceIsNextSlot(s, |s.loads| - 1 + s.lag);
    ContinueKeepsRing(if drained then Trigger(Acknowledge(s), Command.Stop) else Acknowledge(s));
  }

  /** No step of any kind, in any order, takes the driver out of its ring. */
  lemma ApplyKeepsInv(s: Dma, step: Step)
    requires Inv(s) && Enabled(s, step)
    ensures Inv(Apply(s, step))
  {
    match step
    case HwParams(_, _) =>
    case PrepareStep =>
      if GoodParams(s.bufferSize, s.periodSize) {
        ModuloIsMultiple(0, s.periodSize, s.bufferSize);
        LoadKeepsRing(Rewound(s));
      }
    case TriggerStep(_) =>
    case CompleteStep =>
    case IrqStep(drained) =>
      if s.prepared {
        IrqKeepsRing(s, drained);
      }
  }

  lemma {:induction false} RunKeepsInv(s: Dma, steps: seq<Step>)
    requires Inv(s) && ValidRun(s, steps)
    ensures Inv(Run(s, steps))
    decreases |steps|
  {
    if steps != [] {
      ApplyKeepsInv(s, steps[0]);
      RunKeepsInv(Apply(s, steps[0]), steps[1..]);
    }
  }

  /** In every run whatever, with pauses, stops and late interrupts anywhere: the k-th load since
      prepare starts at the ring slot of k plus the interrupts that had loaded nothing by then. */
  lemma LoadsFollowRing(phyAddr: nat, steps: seq<Step>, k: nat)
    requires ValidRun(Initial(phyAddr), steps)
    requires Run(Initial(phyAddr), steps).prepared
    ensures var s := Run(Initial(phyAddr), steps);
            && GoodParams(s.bufferSize, s.periodSize) && |s.lags| == |s.loads|
            && (k < |s.loads| ==> s.loads[k] == s.phyAddr + (k + s.lags[k]) * s.periodSize % s.bufferSize)
  {
    RunKeepsInv(Initial(phyAddr), steps);
  }

  /** And in every such run the offset is a whole number of periods inside the buffer, so the
      period being loaded lies inside the allocation. */
  lemma OffsetStaysInside(phyAddr: nat, steps: seq<Step>)
    requires ValidRun(Initial(phyAddr), steps)
    requires Run(Initial(phyAddr), steps).prepared
    ensures var s := Run(Initial(phyAddr), steps);
            && s.periodSize > 0 && s.dmaOfs % s.periodSize == 0
            && s.dmaOfs + s.periodSize <= s.bufferSize <= BUF_MAX
            && (forall k :: 0 <= k < |s.loads| ==>
                  s.phyAddr <= s.loads[k] && s.loads[k] + s.periodSize <= s.phyAddr + BUF_MAX)
  {
    RunKeepsInv(Initial(phyAddr), steps);
    var s := Run(Initial(phyAddr), steps);
    ModuloIsMultiple(|s.loads| - 1 + s.lag, s.periodSize, s.bufferSize);
    forall k | 0 <= k < |s.loads|
      ensures s.phyAddr <= s.loads[k] && s.loads[k] + s.periodSize <= s.phyAddr + BUF_MAX
    {
      ModuloIsMultiple(k + s.lags[k], s.periodSize, s.bufferSize);
    }
  }

  // ----- what is played -----

  /** Where the calls of the core have brought the stream. Late is a pause or suspend that met a
      waiting completion interrupt. */
  datatype Phase = Unprepared | Ready | Running | Paused | Late | Stopped

  /** The order in which the ALSA core makes its calls: sizes as promised, and not for a stream that
      is going; prepare not while it runs; start once prepared; pause and suspend only while it runs;
      release and resume only after those; and trigger(STOP) from within the interrupt only for a
      running stream. */
  predicate InCoreOrder(s: Dma, phase: Phase, step: Step) {
    match step
    case HwParams(b, p) => GoodParams(b, p) && (phase.Unprepared? || phase.Ready? || phase.Stopped?)
    case PrepareStep => GoodParams(s.bufferSize, s.periodSize) && !phase.Running?
    case TriggerStep(cmd) =>
      (match cmd
       case Start => phase.Ready?
       case Resume => phase.Paused? || phase.Late?
       case PauseRelease => phase.Paused? || phase.Late?
       case Suspend => phase.Running?
       case PausePush => phase.Running?
       case Stop => true
       case Unknown => true)
    case IrqStep(drained) => drained ==> phase.Running?
    case CompleteStep => true
  }

  function Next(s: Dma, phase: Phase, step: Step): Phase {
    match step
    case HwParams(_, _) => Unprepared
    case PrepareStep => Ready
    case TriggerStep(cmd) =>
      if Starts(cmd) then Running
      else if cmd.Stop? then (if phase.Unprepared? then Unprepared else Stopped)
      else if Stops(cmd) then (if s.pending then Late else Paused)
      else phase
    case IrqStep(drained) => if drained then Stopped else phase
    case CompleteStep => phase
  }

  /** The two races of the core with the completion interrupt: going on after a late pause, and
      preparing while the interrupt is still waiting. */
  predicate Race(s: Dma, phase: Phase, step: Step) {
    match step
    case TriggerStep(cmd) => Starts(cmd) && phase.Late?
    case PrepareStep => s.pending
    case _ => false
  }

  /** A run in the core's order without either race. */
  predicate CleanRun(s: Dma, phase: Phase, steps: seq<Step>)
    decreases |steps|
  {
    steps == [] ||
    (Enabled(s, steps[0]) && InCoreOrder(s, phase, steps[0]) && !Race(s, phase, steps[0]) &&
     CleanRun(Apply(s, steps[0]), Next(s, phase, steps[0]), steps[1..]))
  }

  function PhaseAfter(s: Dma, phase: Phase, steps: seq<Step>): Phase
    decreases |steps|
  {
    if steps == [] then phase else PhaseAfter(Apply(s, steps[0]), Next(s, phase, steps[0]), steps[1..])
  }

  /** Every load took its own turn, what was loaded was played once, in order, and the driver's
      flags are those of the phase. */
  predicate InStep(s: Dma, phase: Phase) {
    && |s.lags| == |s.loads|
    && (forall k :: 0 <= k < |s.lags| ==> s.lags[k] == 0)
    && (s.unplayed ==> |s.loads| > 0)
    && s.played == s.loads[..|s.loads| - (if s.unplayed then 1 else 0)]
    && InPhase(s, phase)
  }

  predicate InPhase(s: Dma, phase: Phase) {
    && s.running == phase.Running?
    && (s.on ==> s.unplayed && phase.Running?)
    && (s.pending ==> !s.unplayed && !phase.Ready? && !phase.Paused?)
    && (s.lag > 0 ==> !s.unplayed && !phase.Running?)
    && (phase.Ready? || phase.Paused? ==> s.unplayed)
    && (phase.Running? ==> s.on || s.pending)
    && (phase.Late? ==> !s.unplayed)
    && (phase.Unprepared? ==> !s.prepared)
    && (phase.Ready? || phase.Running? || phase.Paused? || phase.Late? ==> s.prepared)
  }

  lemma ApplyKeepsPhase(s: Dma, phase: Phase, step: Step)
    requires InStep(s, phase) && Enabled(s, step) && InCoreOrder(s, phase, step) && !Race(s, phase, step)
    ensures InPhase(Apply(s, step), Next(s, phase, step))
  {
  }

  lemma ApplyKeepsStep(s: Dma, phase: Phase, step: Step)
    requires InStep(s, phase) && Enabled(s, step) && InCoreOrder(s, phase, step) && !Race(s, phase, step)
    ensures InStep(Apply(s, step), Next(s, phase, step))
  {
    ApplyKeepsPhase(s, phase, step);
    var s' := Apply(s, step);
    match step
    case HwParams(_, _) =>
    case PrepareStep =>
      assert s'.played == s'.loads[..0];
    case TriggerStep(_) =>
    case CompleteStep =>
      assert s.loads == s.loads[..|s.loads| - 1] + [s.loads[|s.loads| - 1]];
    case IrqStep(drained) =>
      if s'.unplayed {
        assert s'.loads[..|s.loads|] == s.loads;
      }
  }

  lemma {:induction false} CleanKeepsStep(s: Dma, phase: Phase, steps: seq<Step>)
    requires InStep(s, phase) && CleanRun(s, phase, steps)
    ensures InStep(Run(s, steps), PhaseAfter(s, phase, steps)) && ValidRun(s, steps)
    decreases |steps|
  {
    if steps != [] {
      ApplyKeepsStep(s, phase, steps[0]);
      CleanKeepsStep(Apply(s, steps[0]), Next(s, phase, steps[0]), steps[1..]);
    }
  }

  /** What has been played since prepare is the ring from its start: no gap, no repeat. */
  predicate Follows(s: Dma)
    requires s.bufferSize > 0
  {
    forall k :: 0 <= k < |s.played| ==> s.played[k] == s.phyAddr + Slot(s, k)
  }

  lemma InStepFollows(s: Dma, phase: Phase)
    requires InStep(s, phase) && InRing(s)
    ensures Follows(s)
  {
    forall k | 0 <= k < |s.played|
      ensures s.played[k] == s.phyAddr + Slot(s, k)
    {
      assert s.played[k] == s.loads[k] && s.lags[k] == 0;
    }
  }

  /** What has been loaded since prepare is the ring from its start. */
  predicate LoadsFollow(s: Dma)
    requires s.bufferSize > 0
  {
    forall k :: 0 <= k < |s.loads| ==> s.loads[k] == s.phyAddr + Slot(s, k)
  }

  /** Whatever pauses, resumes, stops, drains and preparations a run in the core's order contains,
      without the two races the k-th period loaded since prepare is the k-th of the ring, and so is
      the k-th played. */
  lemma PlaysRing(phyAddr: nat, steps: seq<Step>)
    requires CleanRun(Initial(phyAddr), Unprepared, steps)
    requires Run(Initial(phyAddr), steps).prepared
    ensures var s := Run(Initial(phyAddr), steps);
            GoodParams(s.bufferSize, s.periodSize) && LoadsFollow(s) && Follows(s)
  {
    CleanKeepsStep(Initial(phyAddr), Unprepared, steps);
    RunKeepsInv(Initial(phyAddr), steps);
    InStepFollows(Run(Initial(phyAddr), steps), PhaseAfter(Initial(phyAddr), Unprepared, steps));
  }

  // ----- in terms of the sizes the core passed -----

  lemma {:induction false} RunConcat(s: Dma, a: seq<Step>, b: seq<Step>)
    ensures Run(s, a + b) == Run(Run(s, a), b)
    decreases |a|
  {
    if a == [] {
      assert a + b == b;
    } else {
      assert (a + b)[1..] == a[1..] + b;
      RunConcat(Apply(s, a[0]), a[1..], b);
    }
  }

  lemma {:induction false} CleanSuffix(s: Dma, phase: Phase, a: seq<Step>, b: seq<Step>)
    requires CleanRun(s, phase, a + b)
    ensures CleanRun(Run(s, a), PhaseAfter(s, phase, a), b)
    decreases |a|
  {
    if a == [] {
      assert a + b == b;
    } else {
      assert (a + b)[1..] == a[1..] + b;
      CleanSuffix(Apply(s, a[0]), Next(s, phase, a[0]), a[1..], b);
    }
  }

  predicate NoSizes(steps: seq<Step>) {
    forall step <- steps :: !step.HwParams?
  }

  predicate SameSizes(s: Dma, t: Dma) {
    t.phyAddr == s.phyAddr && t.bufferSize == s.bufferSize && t.periodSize == s.periodSize
  }

  lemma PrepareKeepsSizes(s: Dma)
    ensures SameSizes(s, Prepare(s))
  {
  }

  lemma IrqKeepsSizes(s: Dma, drained: bool)
    ensures SameSizes(s, Irq(s, drained)) && Irq(s, drained).prepared == s.prepared
  {
  }

  lemma StepKeepsSizes(s: Dma, step: Step)
    ensures var s' := Apply(s, step);
            && s'.phyAddr == s.phyAddr
            && (!step.HwParams? ==> SameSizes(s, s'))
            && (!step.HwParams? && !step.PrepareStep? ==> s'.prepared == s.prepared)
  {
    match step
    case HwParams(_, _) =>
    case PrepareStep => PrepareKeepsSizes(s);
    case TriggerStep(_) =>
    case CompleteStep =>
    case IrqStep(drained) => IrqKeepsSizes(s, drained);
  }

  /** Between two hw_params calls the sizes stay, and a prepare makes them count. */
  lemma {:induction false} SizesStay(s: Dma, steps: seq<Step>)
    requires NoSizes(steps) && GoodParams(s.bufferSize, s.periodSize)
    ensures var s' := Run(s, steps);
            && s'.bufferSize == s.bufferSize && s'.periodSize == s.periodSize
            && (s.prepared || PrepareStep in steps ==> s'.prepared)
    decreases |steps|
  {
    if steps != [] {
      assert steps[0] in steps;
      StepKeepsSizes(s, steps[0]);
      if steps[0] == PrepareStep {
        assert Apply(s, steps[0]).prepared;
      }
      SizesStay(Apply(s, steps[0]), steps[1..]);
      assert PrepareStep in steps ==> steps[0] == PrepareStep || PrepareStep in steps[1..];
    }
  }

  lemma {:induction false} BaseStays(s: Dma, steps: seq<Step>)
    ensures Run(s, steps).phyAddr == s.phyAddr
    decreases |steps|
  {
    if steps != [] {
      StepKeepsSizes(s, steps[0]);
      BaseStays(Apply(s, steps[0]), steps[1..]);
    }
  }

  /** The ring of the sizes passed: in a clean run whose last hw_params call passed `b` and `p` and was
      followed by a prepare, the k-th period loaded and the k-th played start at the base of the
      allocation plus k p modulo b. */
  lemma PlaysRingOfSizes(phyAddr: nat, before: seq<Step>, b: nat, p: nat, after: seq<Step>)
    requires CleanRun(Initial(phyAddr), Unprepared, before + ([HwParams(b, p)] + after))
    requires NoSizes(after) && PrepareStep in after
    ensures b > 0
    ensures var s := Run(Initial(phyAddr), before + ([HwParams(b, p)] + after));
            && (forall k :: 0 <= k < |s.loads| ==> s.loads[k] == phyAddr + k * p % b)
            && (forall k :: 0 <= k < |s.played| ==> s.played[k] == phyAddr + k * p % b)
  {
    var s0 := Initial(phyAddr);
    var steps := before + ([HwParams(b, p)] + after);
    var s1 := Run(s0, before);
    CleanSuffix(s0, Unprepared, before, [HwParams(b, p)] + after);
    RunConcat(s0, before, [HwParams(b, p)] + after);
    assert ([HwParams(b, p)] + after)[1..] == after;
    SizesStay(Apply(s1, HwParams(b, p)), after);
    BaseStays(s0, steps);
    PlaysRing(phyAddr, steps);
  }

  /** Each lap plays every byte of the buffer in exactly one of its periods: the one numbered
      by the byte's own place. */
  lemma LapTilesBuffer(s: Dma, lap: nat, i: nat, x: nat)
    requires GoodParams(s.bufferSize, s.periodSize)
    requires i < s.bufferSize / s.periodSize && x < s.bufferSize
    ensures var slot := Slot(s, lap * (s.bufferSize / s.periodSize) + i);
            slot <= x < slot + s.periodSize <==> i == x / s.periodSize
    ensures x / s.periodSize < s.bufferSize / s.periodSize
  {
    SlotInLap(s, lap, i);
    PeriodOfByte(x, s.periodSize, s.bufferSize / s.periodSize);
    if i * s.periodSize <= x < i * s.periodSize + s.periodSize {
      UniqueRemainder(x, i, s.periodSize, x - i * s.periodSize);
    }
  }

  lemma PeriodOfByte(x: nat, p: nat, m: nat)
    requires p > 0 && x < m * p
    ensures x / p * p <= x < x / p * p + p && x / p < m
  {
    var i := x / p;
    assert i * p <= x;
    assert (m - i) * p == m * p - i * p > 0;
  }

  lemma SlotInLap(s: Dma, lap: nat, i: nat)
    requires GoodParams(s.bufferSize, s.periodSize) && i < s.bufferSize / s.periodSize
    ensures Slot(s, lap * (s.bufferSize / s.periodSize) + i) == i * s.periodSize
  {
    var m := s.bufferSize / s.periodSize;
    ModuloIsMultiple(lap * m + i, s.periodSize, s.bufferSize);
    UniqueRemainder(lap * m + i, lap, m, i);
  }

  /** In such a run the position reported is the start of the period that is playing or about to
      play; once that has ended, of the period just played, until the interrupts move it on. */
  lemma PointerIsCurrentPeriod(phyAddr: nat, steps: seq<Step>)
    requires CleanRun(Initial(phyAddr), Unprepared, steps)
    requires Run(Initial(phyAddr), steps).prepared
    ensures var s := Run(Initial(phyAddr), steps);
            && s.bufferSize > 0 && (!s.unplayed ==> |s.played| > 0)
            && s.dmaOfs == if s.unplayed then Slot(s, |s.played|) else Slot(s, |s.played| - 1 + s.lag)
  {
    CleanKeepsStep(Initial(phyAddr), Unprepared, steps);
    RunKeepsInv(Initial(phyAddr), steps);
  }

  // ----- the two races -----

  /** Every clean way to go on from here keeps to the ring. */
  ghost predicate StaysInRing(s: Dma, phase: Phase) {
    forall more :: CleanRun(s, phase, more) && Run(s, more).prepared ==>
      var s' := Run(s, more); s'.bufferSize > 0 && Follows(s')
  }

  lemma CleanStaysInRing(s: Dma, phase: Phase)
    requires InStep(s, phase) && Inv(s)
    ensures StaysInRing(s, phase)
  {
    forall more | CleanRun(s, phase, more) && Run(s, more).prepared
      ensures var s' := Run(s, more); s'.bufferSize > 0 && Follows(s')
    {
      CleanKeepsStep(s, phase, more);
      RunKeepsInv(s, more);
      InStepFollows(Run(s, more), PhaseAfter(s, phase, more));
    }
  }

  lemma NeighbourSlotsDiffer(s: Dma, k: nat)
    requires GoodParams(s.bufferSize, s.periodSize) && s.periodSize < s.bufferSize
    ensures Slot(s, k + 1) != Slot(s, k)
  {
    var s' := s.(dmaOfs := Slot(s, k));
    AdvanceIsNextSlot(s', k);
    ModuloIsMultiple(k, s.periodSize, s.bufferSize);
  }

  lemma FirstSlots(s: Dma)
    requires GoodParams(s.bufferSize, s.periodSize) && s.periodSize < s.bufferSize
    ensures Slot(s, 0) == 0 && Slot(s, 1) == s.periodSize
  {
    UniqueRemainder(0, 0, s.bufferSize, 0);
    UniqueRemainder(s.periodSize, 0, s.bufferSize, s.periodSize);
  }

  lemma CleanOne(s: Dma, phase: Phase, step: Step)
    ensures CleanRun(s, phase, [step]) <==> Enabled(s, step) && InCoreOrder(s, phase, step) && !Race(s, phase, step)
    ensures Run(s, [step]) == Apply(s, step) && PhaseAfter(s, phase, [step]) == Next(s, phase, step)
  {
    assert [step][1..] == [];
    assert PhaseAfter(Apply(s, step), Next(s, phase, step), []) == Next(s, phase, step);
    assert CleanRun(Apply(s, step), Next(s, phase, step), []);
    assert Run(Apply(s, step), []) == Apply(s, step);
  }

  lemma CleanCons(s: Dma, phase: Phase, step: Step, more: seq<Step>)
    requires Enabled(s, step) && InCoreOrder(s, phase, step) && !Race(s, phase, step)
    ensures CleanRun(s, phase, [step] + more) <==> CleanRun(Apply(s, step), Next(s, phase, step), more)
    ensures Run(s, [step] + more) == Run(Apply(s, step), more)
    ensures PhaseAfter(s, phase, [step] + more) == PhaseAfter(Apply(s, step), Next(s, phase, step), more)
  {
    assert ([step] + more)[1..] == more;
  }

  /** Going on after a late pause: the period just played is played again. */
  lemma LateResumeReplays(s: Dma, cmd: Command)
    requires InStep(s, Late) && InRing(s) && Starts(cmd) && s.periodSize < s.bufferSize
    ensures var s' := Complete(Trigger(s, cmd));
            && s'.played == s.played + [s.played[|s.played| - 1]]
            && !Follows(s')
  {
    var s' := Complete(Trigger(s, cmd));
    var n := |s.played|;
    assert s.played == s.loads;
    assert s'.played[n] == s.phyAddr + Slot(s, n - 1 + s.lags[n - 1]);
    NeighbourSlotsDiffer(s, n - 1);
  }

  lemma LateResumeLeaves(s: Dma, cmd: Command)
    requires InStep(s, Late) && InRing(s) && Starts(cmd) && s.periodSize < s.bufferSize
    ensures !StaysInRing(Trigger(s, cmd), Running)
  {
    LateResumeReplays(s, cmd);
    CleanOne(Trigger(s, cmd), Running, CompleteStep);
    assert !Follows(Run(Trigger(s, cmd), [CompleteStep]));
  }

  /** Preparing while the interrupt of the stream before is still waiting: the interrupt advances the
      fresh offset, and after period 0 the stream goes on with period 2, which in a buffer of two
      periods is period 0 again. */
  lemma EarlyPrepareSkips(s: Dma)
    requires GoodParams(s.bufferSize, s.periodSize) && s.periodSize < s.bufferSize && s.pending
    ensures var started := Trigger(Irq(Prepare(s), false), Start);
            var s' := Complete(Irq(Complete(started), false));
            && s'.played == [s.phyAddr, s.phyAddr + 2 * s.periodSize % s.bufferSize]
            && !Follows(s')
  {
    var late := Irq(Prepare(s), false);
    FirstSlots(s);
    AdvanceIsNextSlot(Prepare(s), 0);
    assert late.dmaOfs == s.periodSize && late.loads == [s.phyAddr];
    var completed := Complete(Trigger(late, Start));
    AdvanceIsNextSlot(completed, 1);
    NeighbourSlotsDiffer(s, 1);
    var s' := Complete(Irq(completed, false));
    assert s'.played[1] != s'.phyAddr + Slot(s', 1);
  }

  lemma EarlyPrepareLeaves(s: Dma)
    requires GoodParams(s.bufferSize, s.periodSize) && s.periodSize < s.bufferSize && s.pending && !s.on
    ensures !StaysInRing(Prepare(s), Ready)
  {
    EarlyPrepareSkips(s);
    var s1 := Irq(Prepare(s), false);
    var s2 := Trigger(s1, Start);
    var s3 := Complete(s2);
    var s4 := Irq(s3, false);
    CleanOne(s4, Running, CompleteStep);
    CleanCons(s3, Running, IrqStep(false), [CompleteStep]);
    CleanCons(s2, Running, CompleteStep, [IrqStep(false)] + [CompleteStep]);
    CleanCons(s1, Ready, TriggerStep(Start), [CompleteStep] + ([IrqStep(false)] + [CompleteStep]));
    CleanCons(Prepare(s), Ready, IrqStep(false), [TriggerStep(Start)] + ([CompleteStep] + ([IrqStep(false)] + [CompleteStep])));
    var more := [IrqStep(false)] + ([TriggerStep(Start)] + ([CompleteStep] + ([IrqStep(false)] + [CompleteStep])));
    assert CleanRun(Prepare(s), Ready, more) && Run(Prepare(s), more) == Complete(s4);
  }

  /** The races are exactly what goes wrong. After any clean run with a buffer of at least two
      periods, a step in the core's order keeps every clean continuation in the ring if and only if it
      is not one of the two races. */
  lemma RingIffNoRace(phyAddr: nat, steps: seq<Step>, step: Step)
    requires CleanRun(Initial(phyAddr), Unprepared, steps)
    requires var s := Run(Initial(phyAddr), steps);
             var phase := PhaseAfter(Initial(phyAddr), Unprepared, steps);
             && Enabled(s, step) && InCoreOrder(s, phase, step)
             && (Race(s, phase, step) ==> s.periodSize < s.bufferSize)
    ensures var s := Run(Initial(phyAddr), steps);
            var phase := PhaseAfter(Initial(phyAddr), Unprepared, steps);
            StaysInRing(Apply(s, step), Next(s, phase, step)) <==> !Race(s, phase, step)
  {
    var s := Run(Initial(phyAddr), steps);
    var phase := PhaseAfter(Initial(phyAddr), Unprepared, steps);
    CleanKeepsStep(Initial(phyAddr), Unprepared, steps);
    RunKeepsInv(Initial(phyAddr), steps);
    if !Race(s, phase, step) {
      ApplyKeepsStep(s, phase, step);
      ApplyKeepsInv(s, step);
      CleanStaysInRing(Apply(s, step), Next(s, phase, step));
    } else if step.PrepareStep? {
      EarlyPrepareLeaves(s);
    } else {
      LateResumeLeaves(s, step.cmd);
    }
  }

  /** A pause that falls between the end of a period and its interrupt. */
  function LatePause(bufferSize: nat, periodSize: nat): seq<Step> {
    [HwParams(bufferSize, periodSize)] + ([PrepareStep] + ([TriggerStep(Start)] + ([CompleteStep] +
    ([TriggerStep(PausePush)] + [IrqStep(false)]))))
  }

  /** Fresh stream, up to the start. */
  function Started(phyAddr: nat, bufferSize: nat, periodSize: nat): Dma {
    Trigger(Prepare(Apply(Initial(phyAddr), HwParams(bufferSize, periodSize))), Start)
  }

  lemma StartIsClean(phyAddr: nat, bufferSize: nat, periodSize: nat, more: seq<Step>)
    requires GoodParams(bufferSize, periodSize)
    ensures var steps := [HwParams(bufferSize, periodSize)] + ([PrepareStep] + ([TriggerStep(Start)] + more));
            var s := Started(phyAddr, bufferSize, periodSize);
            && (CleanRun(Initial(phyAddr), Unprepared, steps) <==> CleanRun(s, Running, more))
            && PhaseAfter(Initial(phyAddr), Unprepared, steps) == PhaseAfter(s, Running, more)
            && Run(Initial(phyAddr), steps) == Run(s, more)
  {
    var s1 := Apply(Initial(phyAddr), HwParams(bufferSize, periodSize));
    CleanCons(Prepare(s1), Ready, TriggerStep(Start), more);
    CleanCons(s1, Unprepared, PrepareStep, [TriggerStep(Start)] + more);
    CleanCons(Initial(phyAddr), Unprepared, HwParams(bufferSize, periodSize), [PrepareStep] + ([TriggerStep(Start)] + more));
  }

  lemma LatePauseIsClean(s: Dma)
    requires s.on
    ensures var steps := [CompleteStep] + ([TriggerStep(PausePush)] + [IrqStep(false)]);
            && CleanRun(s, Running, steps) && PhaseAfter(s, Running, steps) == Late
            && Run(s, steps) == Irq(Trigger(Complete(s), PausePush), false)
  {
    CleanOne(Trigger(Complete(s), PausePush), Late, IrqStep(false));
    CleanCons(Complete(s), Running, TriggerStep(PausePush), [IrqStep(false)]);
    CleanCons(s, Running, CompleteStep, [TriggerStep(PausePush)] + [IrqStep(false)]);
  }

  /** It can happen; the release is in the core's order, plays period 0 again, and then goes on with
      period 2. */
  lemma LatePauseSkips(phyAddr: nat, bufferSize: nat, periodSize: nat)
    requires GoodParams(bufferSize, periodSize) && periodSize < bufferSize
    ensures CleanRun(Initial(phyAddr), Unprepared, LatePause(bufferSize, periodSize))
    ensures PhaseAfter(Initial(phyAddr), Unprepared, LatePause(bufferSize, periodSize)) == Late
    ensures var s := Run(Initial(phyAddr), LatePause(bufferSize, periodSize));
            var s' := Irq(Complete(Trigger(s, PauseRelease)), false);
            && s'.played == [phyAddr, phyAddr]
            && s'.loads == [phyAddr, phyAddr + 2 * periodSize % bufferSize]
  {
    StartIsClean(phyAddr, bufferSize, periodSize, [CompleteStep] + ([TriggerStep(PausePush)] + [IrqStep(false)]));
    LatePauseIsClean(Started(phyAddr, bufferSize, periodSize));
    LateReleasePlays(Irq(Trigger(Complete(Started(phyAddr, bufferSize, periodSize)), PausePush), false));
  }

  lemma LateReleasePlays(s: Dma)
    requires GoodParams(s.bufferSize, s.periodSize) && s.periodSize < s.bufferSize
    requires s.loads == s.played == [s.phyAddr] && s.dmaOfs == s.periodSize
    ensures var s' := Irq(Complete(Trigger(s, PauseRelease)), false);
            && s'.played == [s.phyAddr, s.phyAddr]
            && s'.loads == [s.phyAddr, s.phyAddr + Slot(s, 2)]
  {
    FirstSlots(s);
    AdvanceIsNextSlot(s, 1);
  }
}
