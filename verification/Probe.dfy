/** Acquisition and release in the LCD driver's probe. Only what the driver itself must give back
    is tracked; device-managed allocations and the interrupt are the kernel's to release. */
module Probe {

  datatype Resource = FbInfo | MemRegion | IoMapping | ClockRef | ClockEnabled | VideoMemory | CpufreqNotifier

  datatype Action = Acquire(r: Resource) | Release(r: Resource)

  /** The steps of probe that can fail. The result of ClockEnable is not looked at. */
  datatype Step =
    | DeviceNode | DisplayAlloc | MachInfoAlloc | GetIrq | FbAlloc | MemResource | RequestRegion | Ioremap
    | RequestIrq | GetClock | ClockEnable | MapVideo | CpufreqRegister | RegisterFb

  /** A probe ends well, with an error, or in the null pointer it does not check for. */
  datatype Outcome = Ok | Failed | Crashed

  /** The labels of the unwind ladder, the deepest first. */
  datatype Label = FreeCpufreq | FreeVideoMemory | ReleaseClock | ReleaseRegs | ReleaseMem | DeallocFb

  /** How the part of probe that acquires ends: through to the end, or in a jump. */
  datatype Exit = Through | Goto(exit: Label)

  datatype Held = Held(stack: seq<Resource>) | Misuse

  /** What is held after a log of actions; releasing anything but the latest is misuse. */
  function Replay(log: seq<Action>): Held
    decreases |log|
  {
    if log == [] then Held([]) else
      var before := Replay(log[..|log| - 1]);
      match before
      case Misuse => Misuse
      case Held(stack) =>
        match log[|log| - 1]
        case Acquire(r) => Held(stack + [r])
        case Release(r) =>
          if stack != [] && stack[|stack| - 1] == r then Held(stack[..|stack| - 1]) else Misuse
  }

  lemma ReplayAcquire(log: seq<Action>, stack: seq<Resource>, r: Resource)
    requires Replay(log) == Held(stack)
    ensures Replay(log + [Acquire(r)]) == Held(stack + [r])
  {
    assert (log + [Acquire(r)])[..|log|] == log;
  }

  lemma ReplayRelease(log: seq<Action>, stack: seq<Resource>, r: Resource)
    requires Replay(log) == Held(stack) && stack != [] && stack[|stack| - 1] == r
    ensures Replay(log + [Release(r)]) == Held(stack[..|stack| - 1])
  {
    assert (log + [Release(r)])[..|log|] == log;
  }

  lemma {:induction false} MisuseStays(log: seq<Action>, more: seq<Action>)
    requires Replay(log) == Misuse
    ensures Replay(log + more) == Misuse
    decreases |more|
  {
    if more == [] {
      assert log + more == log;
    } else {
      assert (log + more)[..|log + more| - 1] == log + more[..|more| - 1];
      MisuseStays(log, more[..|more| - 1]);
    }
  }

  function Count(log: seq<Action>, a: Action): nat {
    multiset(log)[a]
  }

  lemma DropLast(stack: seq<Resource>, r: Resource)
    requires stack != []
    ensures multiset(stack)[r] == multiset(stack[..|stack| - 1])[r] + if stack[|stack| - 1] == r then 1 else 0
  {
    assert stack == stack[..|stack| - 1] + [stack[|stack| - 1]];
  }

  lemma {:induction false} HeldIsDifference(log: seq<Action>, r: Resource)
    requires Replay(log).Held?
    ensures Count(log, Acquire(r)) == Count(log, Release(r)) + multiset(Replay(log).stack)[r]
    decreases |log|
  {
    if log != [] {
      var init, last := log[..|log| - 1], log[|log| - 1];
      assert log == init + [last];
      HeldIsDifference(init, r);
      assert multiset(log) == multiset(init) + multiset{last};
      if last.Release? {
        DropLast(Replay(init).stack, r);
      }
    }
  }

  /** What was acquired, in order. */
  function Acquired(log: seq<Action>): seq<Resource>
    decreases |log|
  {
    if log == [] then [] else
      var init, last := log[..|log| - 1], log[|log| - 1];
      if last.Acquire? then Acquired(init) + [last.r] else Acquired(init)
  }

  lemma AcquiredSnoc(log: seq<Action>, a: Action)
    ensures Acquired(log + [a]) == if a.Acquire? then Acquired(log) + [a.r] else Acquired(log)
  {
    assert (log + [a])[..|log|] == log;
  }

  lemma {:induction false} AcquiredCounts(log: seq<Action>, r: Resource)
    ensures multiset(Acquired(log))[r] == Count(log, Acquire(r))
    decreases |log|
  {
    if log != [] {
      var init, last := log[..|log| - 1], log[|log| - 1];
      assert log == init + [last];
      AcquiredCounts(init, r);
    }
  }

  const ALL := [FbInfo, MemRegion, IoMapping, ClockRef, ClockEnabled, VideoMemory, CpufreqNotifier]

  lemma {:induction false} DistinctOnce(s: seq<Resource>, r: Resource)
    requires forall i, j :: 0 <= i < j < |s| ==> s[i] != s[j]
    ensures multiset(s)[r] <= 1
    decreases |s|
  {
    if s != [] {
      var init, last := s[..|s| - 1], s[|s| - 1];
      assert s == init + [last];
      DistinctOnce(init, r);
      assert last !in init;
    }
  }

  /** Acquired in probe's order, and nothing held any more. */
  predicate GivenBack(log: seq<Action>) {
    Replay(log) == Held([]) && Acquired(log) <= ALL
  }

  /** Such a log acquired each resource at most once, and released exactly what it acquired. */
  lemma ReleasedExactlyOnce(log: seq<Action>, r: Resource)
    requires GivenBack(log)
    ensures Count(log, Release(r)) == Count(log, Acquire(r)) <= 1
    ensures Count(log, Release(r)) == 1 <==> r in Acquired(log)
  {
    HeldIsDifference(log, r);
    AcquiredCounts(log, r);
    DistinctOnce(Acquired(log), r);
  }

  // ----- the ladder -----

  /** The releases from a rung down to the ground. */
  function Ladder(n: nat): seq<Action>
    requires n <= |ALL|
  {
    if n == 0 then [] else [Release(ALL[n - 1])] + Ladder(n - 1)
  }

  /** How many resources the ladder releases from a label. */
  function Rungs(exit: Label): nat {
    match exit
    case FreeCpufreq => 7 case FreeVideoMemory => 6 case ReleaseClock => 5
    case ReleaseRegs => 3 case ReleaseMem => 2 case DeallocFb => 1
  }

  const CLOCK := 4

  /** The first `n` resources, but for the enabled clock if enabling it failed. */
  function Taken(n: nat, enabled: bool): seq<Resource>
    requires n <= |ALL|
  {
    if enabled || n <= CLOCK then ALL[..n] else ALL[..CLOCK] + ALL[CLOCK + 1..n]
  }

  lemma LadderStep(log: seq<Action>, n: nat)
    requires 0 < n <= |ALL|
    ensures log + Ladder(n) == (log + [Release(ALL[n - 1])]) + Ladder(n - 1)
  {
  }

  lemma TakenStep(n: nat, enabled: bool)
    requires 0 < n <= |ALL| && (enabled || n != CLOCK + 1)
    ensures Taken(n, enabled) == Taken(n - 1, enabled) + [ALL[n - 1]]
  {
  }

  /** From any rung the ladder gives everything back, unless it passes the clock without having
      enabled it. Then it disables a clock that is not enabled. */
  lemma {:induction false} LadderReleases(log: seq<Action>, n: nat, enabled: bool)
    requires n <= |ALL| && Replay(log) == Held(Taken(n, enabled))
    ensures Replay(log + Ladder(n)) == if enabled || n <= CLOCK then Held([]) else Misuse
    decreases n
  {
    if n == 0 {
      assert log + Ladder(n) == log;
    } else {
      LadderStep(log, n);
      if enabled || n != CLOCK + 1 {
        RungReleases(log, n, enabled);
        LadderReleases(log + [Release(ALL[n - 1])], n - 1, enabled);
      } else {
        RungMissing(log);
        MisuseStays(log + [Release(ALL[n - 1])], Ladder(n - 1));
      }
    }
  }

  lemma RungReleases(log: seq<Action>, n: nat, enabled: bool)
    requires 0 < n <= |ALL| && (enabled || n != CLOCK + 1) && Replay(log) == Held(Taken(n, enabled))
    ensures Replay(log + [Release(ALL[n - 1])]) == Held(Taken(n - 1, enabled))
  {
    TakenStep(n, enabled);
    assert Taken(n, enabled)[..|Taken(n, enabled)| - 1] == Taken(n - 1, enabled);
    ReplayRelease(log, Taken(n, enabled), ALL[n - 1]);
  }

  lemma RungMissing(log: seq<Action>)
    requires Replay(log) == Held(Taken(CLOCK + 1, false))
    ensures Replay(log + [Release(ALL[CLOCK])]) == Misuse
  {
    assert Taken(CLOCK + 1, false) == ALL[..CLOCK];
    DisableUnheld(log, ALL[..CLOCK], ALL[CLOCK]);
  }

  lemma DisableUnheld(log: seq<Action>, stack: seq<Resource>, r: Resource)
    requires Replay(log) == Held(stack) && (stack == [] || stack[|stack| - 1] != r)
    ensures Replay(log + [Release(r)]) == Misuse
  {
    assert (log + [Release(r)])[..|log|] == log;
  }

  lemma {:induction false} LadderAcquiresNothing(log: seq<Action>, n: nat)
    requires n <= |ALL|
    ensures Acquired(log + Ladder(n)) == Acquired(log)
    decreases n
  {
    if n == 0 {
      assert log + Ladder(n) == log;
    } else {
      LadderStep(log, n);
      AcquiredSnoc(log, Release(ALL[n - 1]));
      LadderAcquiresNothing(log + [Release(ALL[n - 1])], n - 1);
    }
  }

  /** What the ladder makes of a log that only acquired. */
  lemma UnwoundIff(log: seq<Action>, n: nat, enabled: bool)
    requires n <= |ALL| && Replay(log) == Held(Taken(n, enabled)) && Acquired(log) == Taken(n, enabled)
    ensures GivenBack(log + Ladder(n)) <==> enabled || n <= CLOCK
    ensures !GivenBack(log + Ladder(n)) ==> Replay(log + Ladder(n)) == Misuse
  {
    LadderReleases(log, n, enabled);
    LadderAcquiresNothing(log, n);
  }

  lemma {:induction false} AcquiredIff(log: seq<Action>, r: Resource)
    ensures Acquire(r) in log <==> r in Acquired(log)
    decreases |log|
  {
    if log != [] {
      var init, last := log[..|log| - 1], log[|log| - 1];
      assert log == init + [last];
      AcquiredIff(init, r);
    }
  }

  lemma TakenHas(n: nat, enabled: bool)
    requires n <= |ALL|
    ensures var taken := Taken(n, enabled);
            && (FbInfo in taken <==> n > 0) && (MemRegion in taken <==> n > 1) && (IoMapping in taken <==> n > 2)
            && (ClockRef in taken <==> n > 3) && (ClockEnabled in taken <==> n > 4 && enabled)
            && (VideoMemory in taken <==> n > 5) && (CpufreqNotifier in taken <==> n > 6)
  {
    if n > 0 {
      if enabled || n != CLOCK + 1 {
        TakenStep(n, enabled);
        TakenHas(n - 1, enabled);
      } else {
        assert Taken(n, enabled) == Taken(n - 1, enabled);
        TakenHas(n - 1, enabled);
      }
    }
  }

  /** What a probe that got as far as resource `n` has acquired. */
  lemma AcquiredUpTo(log: seq<Action>, n: nat, enabled: bool)
    requires n <= |ALL| && Acquired(log) == Taken(n, enabled)
    ensures (Acquire(FbInfo) in log <==> n > 0) && (Acquire(MemRegion) in log <==> n > 1)
    ensures (Acquire(IoMapping) in log <==> n > 2) && (Acquire(ClockRef) in log <==> n > 3)
    ensures Acquire(ClockEnabled) in log <==> n > 4 && enabled
    ensures (Acquire(VideoMemory) in log <==> n > 5) && (Acquire(CpufreqNotifier) in log <==> n > 6)
  {
    TakenHas(n, enabled);
    AcquiredIff(log, FbInfo);
    AcquiredIff(log, MemRegion);
    AcquiredIff(log, IoMapping);
    AcquiredIff(log, ClockRef);
    AcquiredIff(log, ClockEnabled);
    AcquiredIff(log, VideoMemory);
    AcquiredIff(log, CpufreqNotifier);
  }

  // ----- which probe gets how far -----

  /** Every step before the clock is enabled succeeds. */
  predicate ReachesClock(fails: set<Step>) {
    && DeviceNode !in fails && DisplayAlloc !in fails && MachInfoAlloc !in fails && GetIrq !in fails && FbAlloc !in fails
    && MemResource !in fails && RequestRegion !in fails && Ioremap !in fails && RequestIrq !in fails && GetClock !in fails
  }

  /** Every step succeeds whose result is looked at. */
  predicate Succeeds(fails: set<Step>) {
    ReachesClock(fails) && MapVideo !in fails && CpufreqRegister !in fails && RegisterFb !in fails
  }

  /** How many resources a probe gets as far as: each step that fails before one stops it there. */
  function Reached(fails: set<Step>): nat {
    if !(fails !! {DeviceNode, DisplayAlloc, MachInfoAlloc, GetIrq, FbAlloc}) then 0
    else if !(fails !! {MemResource, RequestRegion}) then 1
    else if Ioremap in fails then 2
    else if !(fails !! {RequestIrq, GetClock}) then 3
    else if MapVideo in fails then 5
    else if CpufreqRegister in fails then 6
    else 7
  }

  lemma ReachedMeans(fails: set<Step>)
    ensures Reached(fails) > 0 <==> fails !! {DeviceNode, DisplayAlloc, MachInfoAlloc, GetIrq, FbAlloc}
    ensures Reached(fails) > 1 <==>
              fails !! {DeviceNode, DisplayAlloc, MachInfoAlloc, GetIrq, FbAlloc, MemResource, RequestRegion}
    ensures Reached(fails) > 2 <==>
              fails !! {DeviceNode, DisplayAlloc, MachInfoAlloc, GetIrq, FbAlloc, MemResource, RequestRegion, Ioremap}
    ensures Reached(fails) > 3 <==> ReachesClock(fails)
    ensures ReachesClock(fails) <==>
              fails !! {DeviceNode, DisplayAlloc, MachInfoAlloc, GetIrq, FbAlloc, MemResource, RequestRegion, Ioremap,
                        RequestIrq, GetClock}
    ensures ReachesClock(fails) && ClockEnable !in fails <==>
              fails !! {DeviceNode, DisplayAlloc, MachInfoAlloc, GetIrq, FbAlloc, MemResource, RequestRegion, Ioremap,
                        RequestIrq, GetClock, ClockEnable}
    ensures Reached(fails) > 4 <==> ReachesClock(fails)
    ensures Reached(fails) > 5 <==>
              fails !! {DeviceNode, DisplayAlloc, MachInfoAlloc, GetIrq, FbAlloc, MemResource, RequestRegion, Ioremap,
                        RequestIrq, GetClock, MapVideo}
    ensures Reached(fails) > 6 <==>
              fails !! {DeviceNode, DisplayAlloc, MachInfoAlloc, GetIrq, FbAlloc, MemResource, RequestRegion, Ioremap,
                        RequestIrq, GetClock, MapVideo, CpufreqRegister}
  {
  }

  lemma SucceedsIff(fails: set<Step>)
    ensures Succeeds(fails) <==> fails <= {ClockEnable}
  {
    forall s: Step | s != ClockEnable && Succeeds(fails)
      ensures s !in fails
    {
      assert s.DeviceNode? || s.DisplayAlloc? || s.MachInfoAlloc? || s.GetIrq? || s.FbAlloc? || s.MemResource?
             || s.RequestRegion? || s.Ioremap? || s.RequestIrq? || s.GetClock? || s.MapVideo? || s.CpufreqRegister?
             || s.RegisterFb?;
    }
  }

  class ProbeRun {
    var log: seq<Action>

    constructor ()
      ensures log == []
    {
      log := [];
    }

    /** So far probe has taken the first `n` resources, and given nothing back. */
    ghost predicate Has(n: nat, enabled: bool)
      requires n <= |ALL|
      reads this
    {
      Replay(log) == Held(Taken(n, enabled)) && Acquired(log) == Taken(n, enabled)
    }

    method Take(r: Resource, ghost n: nat, ghost enabled: bool)
      requires n < |ALL| && ALL[n] == r && (enabled || n != CLOCK) && Has(n, enabled)
      modifies this
      ensures Has(n + 1, enabled)
    {
      TakenStep(n + 1, enabled);
      ReplayAcquire(log, Taken(n, enabled), r);
      AcquiredSnoc(log, Acquire(r));
      log := log + [Acquire(r)];
    }

    /** Enabling the clock; probe goes on either way. */
    method EnableClock(fails: set<Step>)
      requires Has(CLOCK, true)
      modifies this
      ensures Has(CLOCK + 1, ClockEnable !in fails)
    {
      if ClockEnable !in fails {
        Take(ClockEnabled, CLOCK, true);
      } else {
        assert Taken(CLOCK + 1, false) == Taken(CLOCK, true);
      }
    }

    /** One rung of the ladder. */
    method GiveBack(r: Resource, ghost n: nat)
      requires 0 < n <= |ALL| && ALL[n - 1] == r
      modifies this
      ensures log + Ladder(n - 1) == old(log) + Ladder(n)
    {
      LadderStep(log, n);
      log := log + [Release(r)];
    }

    /** From each label the ladder releases everything below it, latest first. */
    method Unwind(exit: Label)
      modifies this
      ensures log == old(log) + Ladder(Rungs(exit))
    {
      ghost var n := Rungs(exit);
      ghost var goal := log + Ladder(n);
      if exit == FreeCpufreq {
        GiveBack(CpufreqNotifier, n);
        n := n - 1;
      }
      if Rungs(exit) >= 6 {
        GiveBack(VideoMemory, n);
        n := n - 1;
      }
      if Rungs(exit) >= 5 {
        GiveBack(ClockEnabled, n);
        GiveBack(ClockRef, n - 1);
        n := n - 2;
      }
      if Rungs(exit) >= 3 {
        GiveBack(IoMapping, n);
        n := n - 1;
      }
      if Rungs(exit) >= 2 {
        GiveBack(MemRegion, n);
        n := n - 1;
      }
      GiveBack(FbInfo, n);
      assert log + Ladder(n - 1) == log;
    }

    /** The part up to the clock: each failing step jumps to the label for what has been taken. */
    method AcquireFirst(fails: set<Step>) returns (exit: Exit)
      requires log == []
      modifies this
      ensures exit == Goto(DeallocFb) <==> MemResource in fails || RequestRegion in fails
      ensures exit == Goto(ReleaseMem) <==> fails !! {MemResource, RequestRegion} && Ioremap in fails
      ensures exit == Goto(ReleaseRegs) <==>
                fails !! {MemResource, RequestRegion, Ioremap} && (RequestIrq in fails || GetClock in fails)
      ensures exit == Through <==> fails !! {MemResource, RequestRegion, Ioremap, RequestIrq, GetClock}
      ensures if exit.Through? then Has(CLOCK, true) else Rungs(exit.exit) < CLOCK && Has(Rungs(exit.exit), true)
    {
      Take(FbInfo, 0, true);
      if MemResource in fails || RequestRegion in fails {
        return Goto(DeallocFb);
      }
      Take(MemRegion, 1, true);
      if Ioremap in fails {
        return Goto(ReleaseMem);
      }
      Take(IoMapping, 2, true);
      if RequestIrq in fails || GetClock in fails {
        return Goto(ReleaseRegs);
      }
      Take(ClockRef, 3, true);
      return Through;
    }

    /** And from the clock on. */
    method AcquireRest(fails: set<Step>) returns (exit: Exit)
      requires Has(CLOCK, true)
      modifies this
      ensures exit == Goto(ReleaseClock) <==> MapVideo in fails
      ensures exit == Goto(FreeVideoMemory) <==> MapVideo !in fails && CpufreqRegister in fails
      ensures exit == Goto(FreeCpufreq) <==> fails !! {MapVideo, CpufreqRegister} && RegisterFb in fails
      ensures exit == Through <==> fails !! {MapVideo, CpufreqRegister, RegisterFb}
      ensures if exit.Through? then Has(|ALL|, ClockEnable !in fails)
              else Rungs(exit.exit) > CLOCK && Has(Rungs(exit.exit), ClockEnable !in fails)
    {
      EnableClock(fails);
      ghost var enabled := ClockEnable !in fails;
      if MapVideo in fails {
        return Goto(ReleaseClock);
      }
      Take(VideoMemory, 5, enabled);
      if CpufreqRegister in fails {
        return Goto(FreeVideoMemory);
      }
      Take(CpufreqNotifier, 6, enabled);
      if RegisterFb in fails {
        return Goto(FreeCpufreq);
      }
      return Through;
    }

    /** Probe, and how many resources it got as far as. */
    method Attempt(fails: set<Step>) returns (outcome: Outcome, ghost n: nat, ghost enabled: bool)
      requires log == []
      modifies this
      ensures n <= |ALL| && n == Reached(fails) && enabled == (n <= CLOCK || ClockEnable !in fails)
      ensures Acquired(log) == Taken(n, enabled)
      ensures outcome == Ok <==> Succeeds(fails)
      ensures outcome == Ok ==> Replay(log) == Held(Taken(|ALL|, ClockEnable !in fails))
      ensures outcome != Ok ==> (GivenBack(log) <==> enabled)
      ensures outcome != Ok && !GivenBack(log) ==> Replay(log) == Misuse
      ensures outcome == Crashed <==> MachInfoAlloc in fails && DeviceNode !in fails && DisplayAlloc !in fails
    {
      n, enabled := 0, true;
      if DeviceNode in fails || DisplayAlloc in fails {
        outcome := Failed;
        return;
      }
      if MachInfoAlloc in fails {
        outcome := Crashed;
        return;
      }
      if GetIrq in fails || FbAlloc in fails {
        outcome := Failed;
        return;
      }
      var exit := AcquireFirst(fails);
      if exit.Through? {
        exit := AcquireRest(fails);
        enabled := ClockEnable !in fails;
      }
      n := if exit.Through? then |ALL| else Rungs(exit.exit);
      match exit
      case Through =>
        outcome := Ok;
      case Goto(l) =>
        UnwoundIff(log, n, enabled);
        LadderAcquiresNothing(log, n);
        Unwind(l);
        outcome := Failed;
    }

    /** Any set of steps may fail. A successful probe holds everything, but for a clock that would not be
        enabled. A failed one has given everything back exactly unless it got past such a clock. */
    method Run(fails: set<Step>) returns (outcome: Outcome)
      requires log == []
      modifies this
      ensures outcome == Ok <==> fails <= {ClockEnable}
      ensures outcome == Ok ==> Replay(log) == Held(Taken(|ALL|, ClockEnable !in fails))
      ensures outcome != Ok ==> (GivenBack(log) <==> !(ReachesClock(fails) && ClockEnable in fails))
      ensures outcome != Ok && !GivenBack(log) ==> Replay(log) == Misuse
      ensures outcome == Crashed <==> MachInfoAlloc in fails && DeviceNode !in fails && DisplayAlloc !in fails
      // Each resource is acquired exactly when every step up to its own succeeds.
      ensures Acquire(FbInfo) in log <==> fails !! {DeviceNode, DisplayAlloc, MachInfoAlloc, GetIrq, FbAlloc}
      ensures Acquire(MemRegion) in log <==>
                fails !! {DeviceNode, DisplayAlloc, MachInfoAlloc, GetIrq, FbAlloc, MemResource, RequestRegion}
      ensures Acquire(IoMapping) in log <==>
                fails !! {DeviceNode, DisplayAlloc, MachInfoAlloc, GetIrq, FbAlloc, MemResource, RequestRegion, Ioremap}
      ensures Acquire(ClockRef) in log <==>
                fails !! {DeviceNode, DisplayAlloc, MachInfoAlloc, GetIrq, FbAlloc, MemResource, RequestRegion, Ioremap,
                          RequestIrq, GetClock}
      ensures Acquire(ClockEnabled) in log <==>
                fails !! {DeviceNode, DisplayAlloc, MachInfoAlloc, GetIrq, FbAlloc, MemResource, RequestRegion, Ioremap,
                          RequestIrq, GetClock, ClockEnable}
      ensures Acquire(VideoMemory) in log <==>
                fails !! {DeviceNode, DisplayAlloc, MachInfoAlloc, GetIrq, FbAlloc, MemResource, RequestRegion, Ioremap,
                          RequestIrq, GetClock, MapVideo}
      ensures Acquire(CpufreqNotifier) in log <==>
                fails !! {DeviceNode, DisplayAlloc, MachInfoAlloc, GetIrq, FbAlloc, MemResource, RequestRegion, Ioremap,
                          RequestIrq, GetClock, MapVideo, CpufreqRegister}
    {
      SucceedsIff(fails);
      ReachedMeans(fails);
      ghost var n, enabled;
      outcome, n, enabled := Attempt(fails);
      AcquiredUpTo(log, n, enabled);
    }
  }

  lemma {:induction false} LadderOnlyReleases(n: nat)
    requires n <= |ALL|
    ensures forall a <- Ladder(n) :: a.Release?
    decreases n
  {
    if n > 0 {
      LadderOnlyReleases(n - 1);
    }
  }

  lemma UnenabledIsDisabled(first: seq<Action>)
    requires Replay(first) == Held(Taken(CLOCK + 1, false)) && Acquire(ClockEnabled) !in first
    ensures var log := first + Ladder(Rungs(ReleaseClock));
            Replay(log) == Misuse && Release(ClockEnabled) in log && Acquire(ClockEnabled) !in log
  {
    var n := Rungs(ReleaseClock);
    LadderReleases(first, n, false);
    LadderOnlyReleases(n);
    assert Ladder(n)[0] == Release(ClockEnabled);
  }

  lemma TakeFirstFour()
    ensures var first := [] + [Acquire(FbInfo)] + [Acquire(MemRegion)] + [Acquire(IoMapping)] + [Acquire(ClockRef)];
            Replay(first) == Held(Taken(CLOCK + 1, false))
  {
    var log, stack: seq<Resource> := [], [];
    ReplayAcquire(log, stack, FbInfo);
    ReplayAcquire(log + [Acquire(FbInfo)], stack + [FbInfo], MemRegion);
    ReplayAcquire(log + [Acquire(FbInfo)] + [Acquire(MemRegion)], stack + [FbInfo] + [MemRegion], IoMapping);
    ReplayAcquire(log + [Acquire(FbInfo)] + [Acquire(MemRegion)] + [Acquire(IoMapping)],
                  stack + [FbInfo] + [MemRegion] + [IoMapping], ClockRef);
    assert Taken(CLOCK + 1, false) == stack + [FbInfo] + [MemRegion] + [IoMapping] + [ClockRef];
  }

  /** The clock cannot be enabled, and then there is no video memory: the ladder disables a clock that
      was never enabled. */
  lemma UnenabledClockIsDisabled()
    ensures var log := [] + [Acquire(FbInfo)] + [Acquire(MemRegion)] + [Acquire(IoMapping)] + [Acquire(ClockRef)]
                       + Ladder(Rungs(ReleaseClock));
            Replay(log) == Misuse && Release(ClockEnabled) in log && Acquire(ClockEnabled) !in log
  {
    TakeFirstFour();
    UnenabledIsDisabled([] + [Acquire(FbInfo)] + [Acquire(MemRegion)] + [Acquire(IoMapping)] + [Acquire(ClockRef)]);
  }
}
