/** The palette protocol of the LCD driver: process-context writers and the frame-sync
    interrupt share a buffer of pending entries over registers whose writes may not stick. */
module Palette {

  const ENTRIES := 256

  /** A sixteen-bit colour, as the palette registers hold it. */
  type Colour = bv16

  /** A palette_buffer entry. Clear stands for PALETTE_BUFF_CLEAR, a value no colour has. */
  datatype Entry = Clear | Pending(colour: Colour)

  type Writer = nat

  datatype Request = Request(regno: nat, val: Colour)

  /** `flight` holds the colour each writer has put into the hardware but not scheduled yet,
      `wanted` the value scheduled last for each register, `requested` the one asked for last. */
  datatype State = State(
    buffer: seq<Entry>, ready: bool, masked: bool, pal: seq<Colour>,
    flight: map<Writer, Request>, wanted: map<nat, Colour>, requested: map<nat, Colour>)

  predicate AnyPending(buffer: seq<Entry>) {
    exists i :: 0 <= i < |buffer| && buffer[i].Pending?
  }

  // ----- steps -----

  /** `stored` is what a palette register holds after a write to it, whatever was written. */
  datatype Step =
    | Poke(w: Writer, req: Request, stored: Colour)
    | Schedule(w: Writer)
    | FrameSync(results: seq<Colour>)

  /** The buffer after the interrupt tried every pending entry: those that read back are done. */
  function Settle(buffer: seq<Entry>, results: seq<Colour>): (settled: seq<Entry>)
    requires |buffer| == |results|
    ensures |settled| == |buffer|
  {
    seq(|buffer|, i requires 0 <= i < |buffer| => if buffer[i] == Pending(results[i]) then Clear else buffer[i])
  }

  function WritePending(buffer: seq<Entry>, pal: seq<Colour>, results: seq<Colour>): (pal': seq<Colour>)
    requires |buffer| == |pal| == |results|
    ensures |pal'| == |pal|
  {
    seq(|pal|, i requires 0 <= i < |pal| => if buffer[i] == Clear then pal[i] else results[i])
  }

  predicate WellFormed(s: State) {
    && |s.buffer| == ENTRIES && |s.pal| == ENTRIES
    && (forall w <- s.flight :: s.flight[w].regno < ENTRIES)
  }

  /** Any number of writers may interleave; the interrupt is delivered only while unmasked. */
  predicate Enabled(s: State, step: Step) {
    match step
    case Poke(w, req, _) => w !in s.flight && req.regno < ENTRIES
    case Schedule(w) => w in s.flight
    case FrameSync(results) => !s.masked && |results| == ENTRIES
  }

  function Apply(s: State, step: Step): (s': State)
    requires WellFormed(s) && Enabled(s, step)
    ensures WellFormed(s')
  {
    match step
    case Poke(w, req, stored) =>
      s.(pal := s.pal[req.regno := stored], flight := s.flight[w := req],
         requested := s.requested[req.regno := req.val])
    case Schedule(w) =>
      var req := s.flight[w];
      s.(buffer := s.buffer[req.regno := Pending(req.val)], ready := true, masked := s.masked && s.ready,
         flight := s.flight - {w}, wanted := s.wanted[req.regno := req.val])
    case FrameSync(results) =>
      if !s.ready then s else
        var settled := Settle(s.buffer, results);
        s.(buffer := settled, ready := AnyPending(settled), pal := WritePending(s.buffer, s.pal, results))
  }

  /** Some frame interrupts in a row. */
  function AfterFrames(s: State, frames: seq<seq<Colour>>): (s': State)
    requires WellFormed(s) && (frames != [] ==> !s.masked)
    requires forall results <- frames :: |results| == ENTRIES
    ensures WellFormed(s') && s'.flight == s.flight && s'.masked == s.masked
    decreases |frames|
  {
    if frames == [] then s else Apply(AfterFrames(s, frames[..|frames| - 1]), FrameSync(frames[|frames| - 1]))
  }

  /** The driver after probe, over a palette that holds anything at all. */
  function Initial(masked: bool, pal: seq<Colour>): State {
    State(seq(ENTRIES, _ => Clear), false, masked, pal, map[], map[], map[])
  }

  predicate ValidRun(s: State, steps: seq<Step>)
    requires WellFormed(s)
    decreases |steps|
  {
    steps == [] || (Enabled(s, steps[0]) && ValidRun(Apply(s, steps[0]), steps[1..]))
  }

  function Run(s: State, steps: seq<Step>): (s': State)
    requires WellFormed(s) && ValidRun(s, steps)
    ensures WellFormed(s')
    decreases |steps|
  {
    if steps == [] then s else Run(Apply(s, steps[0]), steps[1..])
  }

  // ----- safety -----

  predicate Targets(flight: map<Writer, Request>, regno: nat) {
    exists w :: w in flight && flight[w].regno == regno
  }

  predicate InFlight(s: State, regno: nat) {
    Targets(s.flight, regno)
  }

  /** The entry is pending with the value scheduled last, or the register holds that value;
      only a writer between its raw write and its scheduling may disturb the register. */
  predicate Safe(s: State, regno: nat)
    requires WellFormed(s) && regno < ENTRIES
  {
    if s.buffer[regno].Pending? then regno in s.wanted && s.buffer[regno] == Pending(s.wanted[regno])
    else regno in s.wanted && !InFlight(s, regno) ==> s.pal[regno] == s.wanted[regno]
  }

  predicate Inv(s: State) {
    && WellFormed(s)
    && (forall regno :: 0 <= regno < ENTRIES ==> Safe(s, regno))
    && (s.ready <==> AnyPending(s.buffer))
    && (s.ready ==> !s.masked)
  }

  lemma ApplyKeepsSafe(s: State, step: Step, regno: nat)
    requires WellFormed(s) && Enabled(s, step) && regno < ENTRIES
    requires Safe(s, regno)
    ensures Safe(Apply(s, step), regno)
  {
    var s' := Apply(s, step);
    match step
    case Poke(w, req, _) =>
      assert w in s'.flight && s'.flight[w] == req;
      if InFlight(s, regno) {
        var v :| v in s.flight && s.flight[v].regno == regno;
        assert v in s'.flight && s'.flight[v].regno == regno;
      }
    case Schedule(w) =>
      if InFlight(s, regno) && s.flight[w].regno != regno {
        var v :| v in s.flight && s.flight[v].regno == regno;
        assert v in s'.flight && s'.flight[v].regno == regno;
      }
    case FrameSync(_) =>
  }

  /** Every step of every thread keeps the protocol's invariant. */
  lemma ApplyKeepsInv(s: State, step: Step)
    requires Inv(s) && Enabled(s, step)
    ensures Inv(Apply(s, step))
  {
    forall regno | 0 <= regno < ENTRIES
      ensures Safe(Apply(s, step), regno)
    {
      ApplyKeepsSafe(s, step, regno);
    }
    if step.Schedule? {
      assert Apply(s, step).buffer[s.flight[step.w].regno].Pending?;
    }
  }

  lemma {:induction false} RunKeepsInv(s: State, steps: seq<Step>)
    requires Inv(s) && ValidRun(s, steps)
    ensures Inv(Run(s, steps))
    decreases |steps|
  {
    if steps != [] {
      ApplyKeepsInv(s, steps[0]);
      RunKeepsInv(Apply(s, steps[0]), steps[1..]);
    }
  }

  /** No colour update is lost, in any interleaving and however often writes fail: each register
      ever scheduled is pending with its last value, or holds it, or has a writer in flight. */
  lemma NoUpdateLost(masked: bool, pal: seq<Colour>, steps: seq<Step>, regno: nat)
    requires |pal| == ENTRIES && ValidRun(Initial(masked, pal), steps)
    requires regno in Run(Initial(masked, pal), steps).wanted && regno < ENTRIES
    ensures var s := Run(Initial(masked, pal), steps);
            || s.buffer[regno] == Pending(s.wanted[regno])
            || (s.buffer[regno] == Clear && s.pal[regno] == s.wanted[regno])
            || InFlight(s, regno)
  {
    RunKeepsInv(Initial(masked, pal), steps);
    assert Safe(Run(Initial(masked, pal), steps), regno);
  }

  /** The ready flag says exactly whether something is pending, and then the interrupt that
      will deal with it is unmasked. */
  lemma PendingIsDeliverable(masked: bool, pal: seq<Colour>, steps: seq<Step>)
    requires |pal| == ENTRIES && ValidRun(Initial(masked, pal), steps)
    ensures var s := Run(Initial(masked, pal), steps);
            && (s.ready <==> AnyPending(s.buffer))
            && (AnyPending(s.buffer) ==> !s.masked)
  {
    RunKeepsInv(Initial(masked, pal), steps);
  }

  // ----- writers that do not conflict -----

  /** Another writer is between its raw write and its scheduling of a different colour for the same
      register. */
  predicate Conflict(flight: map<Writer, Request>, req: Request) {
    exists v :: v in flight && flight[v].regno == req.regno && flight[v].val != req.val
  }

  /** Writers of different registers, or of the same colour, may interleave. */
  predicate NoConflict(s: State, steps: seq<Step>)
    requires WellFormed(s) && ValidRun(s, steps)
    decreases |steps|
  {
    steps == [] ||
    ((steps[0].Poke? ==> !Conflict(s.flight, steps[0].req)) && NoConflict(Apply(s, steps[0]), steps[1..]))
  }

  /** What was asked for last is what is in flight for the register, or what was scheduled last. */
  predicate Ordered(flight: map<Writer, Request>, wanted: map<nat, Colour>, requested: map<nat, Colour>) {
    && (forall w <- flight :: flight[w].regno in requested && requested[flight[w].regno] == flight[w].val)
    && (forall regno <- requested :: Targets(flight, regno) || (regno in wanted && wanted[regno] == requested[regno]))
  }

  predicate InOrder(s: State) {
    Ordered(s.flight, s.wanted, s.requested)
  }

  lemma TargetsMore(flight: map<Writer, Request>, w: Writer, req: Request, regno: nat)
    requires w !in flight
    ensures Targets(flight[w := req], regno) <==> regno == req.regno || Targets(flight, regno)
  {
    assert w in flight[w := req] && flight[w := req][w] == req;
    if Targets(flight, regno) {
      var v :| v in flight && flight[v].regno == regno;
      assert v in flight[w := req] && flight[w := req][v] == flight[v];
    }
  }

  lemma PokeKeepsOrder(flight: map<Writer, Request>, wanted: map<nat, Colour>, requested: map<nat, Colour>,
                       w: Writer, req: Request)
    requires w !in flight && !Conflict(flight, req) && Ordered(flight, wanted, requested)
    ensures Ordered(flight[w := req], wanted, requested[req.regno := req.val])
  {
    forall regno | regno in requested[req.regno := req.val] && !Targets(flight[w := req], regno)
      ensures regno in wanted && wanted[regno] == requested[req.regno := req.val][regno]
    {
      TargetsMore(flight, w, req, regno);
    }
  }

  lemma ScheduleKeepsOrder(flight: map<Writer, Request>, wanted: map<nat, Colour>, requested: map<nat, Colour>, w: Writer)
    requires w in flight && Ordered(flight, wanted, requested)
    ensures Ordered(flight - {w}, wanted[flight[w].regno := flight[w].val], requested)
  {
    forall regno | regno in requested && regno != flight[w].regno && Targets(flight, regno)
      ensures Targets(flight - {w}, regno)
    {
      var v :| v in flight && flight[v].regno == regno;
      assert v in flight - {w};
    }
  }

  lemma ApplyKeepsOrder(s: State, step: Step)
    requires WellFormed(s) && Enabled(s, step) && InOrder(s)
    requires step.Poke? ==> !Conflict(s.flight, step.req)
    ensures InOrder(Apply(s, step))
  {
    match step
    case Poke(w, req, _) => PokeKeepsOrder(s.flight, s.wanted, s.requested, w, req);
    case Schedule(w) => ScheduleKeepsOrder(s.flight, s.wanted, s.requested, w);
    case FrameSync(_) =>
  }

  lemma {:induction false} NoConflictKeepsOrder(s: State, steps: seq<Step>)
    requires WellFormed(s) && ValidRun(s, steps) && NoConflict(s, steps) && InOrder(s)
    ensures InOrder(Run(s, steps))
    decreases |steps|
  {
    if steps != [] {
      ApplyKeepsOrder(s, steps[0]);
      NoConflictKeepsOrder(Apply(s, steps[0]), steps[1..]);
    }
  }

  /** The request made last for a register is pending, or held by the register, or has a writer in
      flight. */
  predicate Kept(s: State, regno: nat)
    requires WellFormed(s) && regno < ENTRIES
  {
    regno in s.requested ==>
      || s.buffer[regno] == Pending(s.requested[regno])
      || (s.buffer[regno] == Clear && s.pal[regno] == s.requested[regno])
      || InFlight(s, regno)
  }

  lemma OrderedIsKept(s: State, regno: nat)
    requires Inv(s) && InOrder(s) && regno < ENTRIES
    ensures Kept(s, regno)
  {
    assert Safe(s, regno);
    if regno in s.requested && !InFlight(s, regno) {
      assert regno in s.wanted;
    }
  }

  lemma ReachedInOrder(masked: bool, pal: seq<Colour>, steps: seq<Step>)
    requires |pal| == ENTRIES && ValidRun(Initial(masked, pal), steps)
    requires NoConflict(Initial(masked, pal), steps)
    ensures Inv(Run(Initial(masked, pal), steps)) && InOrder(Run(Initial(masked, pal), steps))
  {
    InitialInOrder(masked, pal);
    RunInOrder(Initial(masked, pal), steps);
  }

  lemma InitialInOrder(masked: bool, pal: seq<Colour>)
    requires |pal| == ENTRIES
    ensures Inv(Initial(masked, pal)) && InOrder(Initial(masked, pal))
  {
  }

  lemma RunInOrder(s: State, steps: seq<Step>)
    requires Inv(s) && InOrder(s) && ValidRun(s, steps) && NoConflict(s, steps)
    ensures Inv(Run(s, steps)) && InOrder(Run(s, steps))
  {
    NoConflictKeepsOrder(s, steps);
    RunKeepsInv(s, steps);
  }

  /** In a run without a conflict, the request made last for each register is kept. */
  lemma NoRequestLost(masked: bool, pal: seq<Colour>, steps: seq<Step>, regno: nat)
    requires |pal| == ENTRIES && ValidRun(Initial(masked, pal), steps)
    requires NoConflict(Initial(masked, pal), steps) && regno < ENTRIES
    ensures Kept(Run(Initial(masked, pal), steps), regno)
  {
    ReachedInOrder(masked, pal, steps);
    OrderedIsKept(Run(Initial(masked, pal), steps), regno);
  }

  /** Every way to go on from here without a conflict keeps all requests. */
  ghost predicate StaysKept(s: State)
    requires WellFormed(s)
  {
    forall more, regno | ValidRun(s, more) && NoConflict(s, more) && 0 <= regno < ENTRIES :: Kept(Run(s, more), regno)
  }

  lemma OrderedStaysKept(s: State)
    requires Inv(s) && InOrder(s)
    ensures StaysKept(s)
  {
    forall more, regno | ValidRun(s, more) && NoConflict(s, more) && 0 <= regno < ENTRIES
      ensures Kept(Run(s, more), regno)
    {
      NoConflictKeepsOrder(s, more);
      RunKeepsInv(s, more);
      OrderedIsKept(Run(s, more), regno);
    }
  }

  /** Every writer in flight for the register brings the same colour. */
  predicate AllBring(s: State, regno: nat, val: Colour) {
    forall v <- s.flight :: s.flight[v].regno == regno ==> s.flight[v].val == val
  }

  /** Scheduling the writers in flight for a register, one after the other: nobody is in flight for it
      any more, and their colour is pending. */
  lemma Drain(s: State, regno: nat, val: Colour) returns (more: seq<Step>)
    requires WellFormed(s) && regno < ENTRIES && AllBring(s, regno, val)
    requires InFlight(s, regno) || s.buffer[regno] == Pending(val)
    ensures ValidRun(s, more) && NoConflict(s, more)
    ensures var s' := Run(s, more);
            !InFlight(s', regno) && s'.buffer[regno] == Pending(val) && s'.requested == s.requested
    decreases |s.flight|
  {
    if InFlight(s, regno) {
      var v :| v in s.flight && s.flight[v].regno == regno;
      var rest := Drain(Apply(s, Schedule(v)), regno, val);
      more := [Schedule(v)] + rest;
      assert more[1..] == rest;
    } else {
      more := [];
    }
  }

  /** After a conflict the later request can be lost: it is scheduled first, then the earlier ones. */
  lemma ConflictLeaves(s: State, w: Writer, req: Request, stored: Colour)
    requires WellFormed(s) && InOrder(s) && Enabled(s, Poke(w, req, stored)) && Conflict(s.flight, req)
    ensures !StaysKept(Apply(s, Poke(w, req, stored)))
  {
    var s1 := Apply(s, Poke(w, req, stored));
    var s2 := Apply(s1, Schedule(w));
    var older := s.requested[req.regno];
    var v :| v in s.flight && s.flight[v].regno == req.regno && s.flight[v].val != req.val;
    assert v in s2.flight && s2.flight[v] == s.flight[v];
    assert AllBring(s2, req.regno, older);
    var rest := Drain(s2, req.regno, older);
    var more := [Schedule(w)] + rest;
    assert more[1..] == rest;
    assert ValidRun(s1, more) && NoConflict(s1, more) && Run(s1, more) == Run(s2, rest);
    assert !Kept(Run(s1, more), req.regno);
  }

  lemma StepStaysKept(s: State, step: Step)
    requires Inv(s) && InOrder(s) && Enabled(s, step)
    ensures StaysKept(Apply(s, step)) <==> !(step.Poke? && Conflict(s.flight, step.req))
  {
    if step.Poke? && Conflict(s.flight, step.req) {
      ConflictLeaves(s, step.w, step.req, step.stored);
    } else {
      ApplyKeepsOrder(s, step);
      ApplyKeepsInv(s, step);
      OrderedStaysKept(Apply(s, step));
    }
  }

  /** Conflicts are exactly what loses requests: after any run without one, a step keeps all requests in
      every continuation without a conflict if and only if it is no conflict itself. */
  lemma KeptIffNoConflict(masked: bool, pal: seq<Colour>, steps: seq<Step>, step: Step)
    requires |pal| == ENTRIES && ValidRun(Initial(masked, pal), steps)
    requires NoConflict(Initial(masked, pal), steps)
    requires Enabled(Run(Initial(masked, pal), steps), step)
    ensures var s := Run(Initial(masked, pal), steps);
            StaysKept(Apply(s, step)) <==> !(step.Poke? && Conflict(s.flight, step.req))
  {
    ReachedInOrder(masked, pal, steps);
    StepStaysKept(Run(Initial(masked, pal), steps), step);
  }

  /** The smallest run that loses a request: two writers overlap on one register, and the later one is
      scheduled first. Nobody is in flight at the end, and the earlier colour is what stays pending. */
  lemma ConflictLosesRequest(masked: bool, pal: seq<Colour>, regno: nat, earlier: Colour, later: Colour)
    requires |pal| == ENTRIES && regno < ENTRIES && earlier != later
    ensures var s0 := Initial(masked, pal);
            var s1 := Apply(s0, Poke(0, Request(regno, earlier), earlier));
            Enabled(s1, Poke(1, Request(regno, later), later)) && Conflict(s1.flight, Request(regno, later)) &&
            var s2 := Apply(s1, Poke(1, Request(regno, later), later));
            Enabled(s2, Schedule(1)) &&
            var s3 := Apply(s2, Schedule(1));
            Enabled(s3, Schedule(0)) &&
            var s' := Apply(s3, Schedule(0));
            s'.flight == map[] && s'.buffer[regno] == Pending(earlier) && !Kept(s', regno)
  {
    var s1 := Apply(Initial(masked, pal), Poke(0, Request(regno, earlier), earlier));
    assert 0 in s1.flight && s1.flight[0] == Request(regno, earlier);
    var s2 := Apply(s1, Poke(1, Request(regno, later), later));
    var s' := Apply(Apply(s2, Schedule(1)), Schedule(0));
    assert s'.flight == map[];
  }

  // ----- progress -----

  function PendingCount(buffer: seq<Entry>): nat {
    if buffer == [] then 0
    else (if buffer[0] == Clear then 0 else 1) + PendingCount(buffer[1..])
  }

  /** How many pending entries read back as written. */
  function VerifiedCount(buffer: seq<Entry>, results: seq<Colour>): nat
    requires |buffer| == |results|
  {
    if buffer == [] then 0
    else (if buffer[0] == Pending(results[0]) then 1 else 0) + VerifiedCount(buffer[1..], results[1..])
  }

  lemma {:induction false} SettleCounts(buffer: seq<Entry>, results: seq<Colour>)
    requires |buffer| == |results|
    ensures PendingCount(Settle(buffer, results)) == PendingCount(buffer) - VerifiedCount(buffer, results)
    decreases |buffer|
  {
    if buffer != [] {
      SettleCounts(buffer[1..], results[1..]);
      assert Settle(buffer, results)[1..] == Settle(buffer[1..], results[1..]);
    }
  }

  lemma {:induction false} CountedIffPending(buffer: seq<Entry>)
    ensures PendingCount(buffer) > 0 <==> AnyPending(buffer)
    decreases |buffer|
  {
    if buffer != [] {
      CountedIffPending(buffer[1..]);
      if AnyPending(buffer[1..]) {
        var i :| 0 <= i < |buffer[1..]| && buffer[1..][i].Pending?;
        assert buffer[i + 1].Pending?;
      }
      if AnyPending(buffer) && buffer[0] == Clear {
        var i :| 0 <= i < |buffer| && buffer[i].Pending?;
        assert buffer[1..][i - 1].Pending?;
      }
    }
  }

  /** A frame interrupt takes exactly the verified writes off the pending count. */
  lemma FrameSyncProgress(s: State, results: seq<Colour>)
    requires Inv(s) && Enabled(s, FrameSync(results))
    ensures PendingCount(Apply(s, FrameSync(results)).buffer)
         == PendingCount(s.buffer) - (if s.ready then VerifiedCount(s.buffer, results) else 0)
    ensures Apply(s, FrameSync(results)).ready <==> PendingCount(Apply(s, FrameSync(results)).buffer) > 0
  {
    SettleCounts(s.buffer, results);
    ApplyKeepsInv(s, FrameSync(results));
    CountedIffPending(Apply(s, FrameSync(results)).buffer);
  }

  /** One interrupt whose writes all stick brings the hardware up to date, exactly then: with no
      writer in flight, nothing stays pending and every register holds its scheduled value. */
  lemma FrameSyncSettles(s: State, results: seq<Colour>)
    requires Inv(s) && Enabled(s, FrameSync(results)) && s.flight == map[]
    ensures var s' := Apply(s, FrameSync(results));
            (forall regno :: regno in s.wanted && regno < ENTRIES ==> s'.pal[regno] == s.wanted[regno] && s'.buffer[regno] == Clear)
            <==>
            (forall i :: 0 <= i < ENTRIES && s.buffer[i].Pending? ==> s.buffer[i] == Pending(results[i]))
  {
    var s' := Apply(s, FrameSync(results));
    if forall i :: 0 <= i < ENTRIES && s.buffer[i].Pending? ==> s.buffer[i] == Pending(results[i]) {
      forall regno | regno in s.wanted && regno < ENTRIES
        ensures s'.pal[regno] == s.wanted[regno] && s'.buffer[regno] == Clear
      {
        assert Safe(s, regno);
      }
    }
    if forall regno :: regno in s.wanted && regno < ENTRIES ==> s'.pal[regno] == s.wanted[regno] && s'.buffer[regno] == Clear {
      forall i | 0 <= i < ENTRIES && s.buffer[i].Pending?
        ensures s.buffer[i] == Pending(results[i])
      {
        assert Safe(s, i);
        assert s.ready;
      }
    }
  }

  // ----- any number of interrupts -----

  predicate Stuck(frames: seq<seq<Colour>>, regno: nat, val: Colour)
    requires regno < ENTRIES && forall results <- frames :: |results| == ENTRIES
  {
    exists i :: 0 <= i < |frames| && frames[i][regno] == val
  }

  /** With interrupts alone, a pending entry is cleared if and only if one of its writes stuck; until
      then it stays pending with its colour. */
  lemma {:induction false} FramesSettle(s: State, frames: seq<seq<Colour>>, regno: nat)
    requires Inv(s) && regno < ENTRIES && s.buffer[regno].Pending?
    requires (frames != [] ==> !s.masked) && forall results <- frames :: |results| == ENTRIES
    ensures var s' := AfterFrames(s, frames);
            && Inv(s') && s'.wanted == s.wanted
            && s'.buffer[regno] == if Stuck(frames, regno, s.buffer[regno].colour) then Clear else s.buffer[regno]
    decreases |frames|
  {
    if frames != [] {
      var init, last := frames[..|frames| - 1], frames[|frames| - 1];
      var val := s.buffer[regno].colour;
      FramesSettle(s, init, regno);
      var s1 := AfterFrames(s, init);
      ApplyKeepsInv(s1, FrameSync(last));
      StuckLast(frames, regno, val);
    }
  }

  lemma StuckLast(frames: seq<seq<Colour>>, regno: nat, val: Colour)
    requires frames != [] && regno < ENTRIES && forall results <- frames :: |results| == ENTRIES
    ensures Stuck(frames, regno, val)
            <==> Stuck(frames[..|frames| - 1], regno, val) || frames[|frames| - 1][regno] == val
  {
    var init := frames[..|frames| - 1];
    if Stuck(init, regno, val) {
      var i :| 0 <= i < |init| && init[i][regno] == val;
      assert frames[i][regno] == val;
    }
    if Stuck(frames, regno, val) && frames[|frames| - 1][regno] != val {
      var i :| 0 <= i < |frames| && frames[i][regno] == val;
      assert init[i][regno] == val;
    }
  }

  /** So after any number of interrupts, with no writer in flight, a register whose entry was pending
      holds the colour scheduled last, with nothing left to do, if and only if one of the writes stuck. */
  lemma RegisterSettlesIffStuck(s: State, frames: seq<seq<Colour>>, regno: nat)
    requires Inv(s) && regno < ENTRIES && s.buffer[regno].Pending? && s.flight == map[]
    requires forall results <- frames :: |results| == ENTRIES
    ensures regno in s.wanted && !s.masked
    ensures var s' := AfterFrames(s, frames);
            s'.buffer[regno] == Clear && s'.pal[regno] == s.wanted[regno] <==> Stuck(frames, regno, s.wanted[regno])
  {
    assert Safe(s, regno);
    assert s.ready;
    FramesSettle(s, frames, regno);
    assert Safe(AfterFrames(s, frames), regno);
  }
}
