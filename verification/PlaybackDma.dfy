/** The playback DMA driver: the record it keeps, the channel registers it programs, and the
    methods the ALSA core and the interrupt call. */
module PlaybackDma {
  import opened DmaRing

  /** The fixed control bits of DCON: handshake, interrupt at zero, hardware trigger from I2S,
      no reload, half-word units. All lie above the twenty bits of the transfer count. */
  const DCON_CONTROL := 0xA0D
  const COUNT_RANGE := 0x10_0000
  const IIS_FIFO := 0x5500_0010

  /** The source is on the system bus and counts up; the destination is on the peripheral bus and
      stays put. */
  const MEMORY_BUS := 0
  const FIFO_BUS := 3

  const CONTROL_WIDTH := 0x1000

  /** The count OR-ed into the control bits; a count past its twenty bits runs into them. */
  function Dcon(count: nat): nat {
    Control(count / COUNT_RANGE) * COUNT_RANGE + count % COUNT_RANGE
  }

  function Control(spill: nat): nat {
    ((spill % CONTROL_WIDTH) as bv12 | DCON_CONTROL as bv12) as nat
  }

  lemma ControlAlone()
    ensures Control(0) == DCON_CONTROL
  {
  }

  lemma DconSmall(count: nat)
    requires count < COUNT_RANGE
    ensures Dcon(count) == DCON_CONTROL * COUNT_RANGE + count
  {
    ControlAlone();
    assert count / COUNT_RANGE == 0 && count % COUNT_RANGE == count;
  }

  /** The count field holds the period in half-words and leaves the control bits alone. */
  lemma DconFields(bufferSize: nat, periodSize: nat)
    requires GoodParams(bufferSize, periodSize)
    ensures periodSize / 2 < COUNT_RANGE
    ensures Dcon(periodSize / 2) % COUNT_RANGE * 2 == periodSize
    ensures Dcon(periodSize / 2) / COUNT_RANGE == DCON_CONTROL
    ensures Dcon(periodSize / 2) == 0xA0D0_0000 + periodSize / 2
  {
    PeriodFits(bufferSize, periodSize);
    DconSmall(periodSize / 2);
    Fields(DCON_CONTROL, periodSize / 2);
  }

  lemma Fields(control: nat, count: nat)
    requires count < COUNT_RANGE
    ensures (control * COUNT_RANGE + count) % COUNT_RANGE == count
    ensures (control * COUNT_RANGE + count) / COUNT_RANGE == control
  {
  }

  lemma PeriodFits(bufferSize: nat, periodSize: nat)
    requires GoodParams(bufferSize, periodSize)
    ensures periodSize <= bufferSize
  {
    ModuloIsMultiple(0, periodSize, bufferSize);
  }

  class PlaybackDma {
    // s3c2440_dma_info
    var bufferSize: nat
    var periodSize: nat
    const phyAddr: nat
    var dmaOfs: nat
    var beRunning: bool

    // channel registers
    var disrc: nat
    var disrcc: nat
    var didst: nat
    var didstc: nat
    var dcon: nat
    var dmasktrigOn: bool

    /** The state machine's view: the record, the channel, and the history since prepare. */
    ghost var ring: Dma

    ghost predicate SameRecord()
      reads this
    {
      && ring.bufferSize == bufferSize && ring.periodSize == periodSize && ring.phyAddr == phyAddr
      && ring.dmaOfs == dmaOfs && ring.running == beRunning && ring.on == dmasktrigOn
    }

    /** The channel is programmed with the last period loaded. */
    ghost predicate Programmed()
      reads this
    {
      && (ring.loads != [] ==> disrc == ring.loads[|ring.loads| - 1] && didst == IIS_FIFO)
      && (ring.loads != [] ==> disrcc == MEMORY_BUS && didstc == FIFO_BUS)
      && (ring.prepared ==> ring.loads != [] && dcon == Dcon(periodSize / 2))
    }

    ghost predicate Valid()
      reads this
    {
      SameRecord() && Programmed()
    }

    constructor (phyAddr: nat)
      ensures Valid() && ring == Initial(phyAddr)
    {
      this.phyAddr := phyAddr;
      bufferSize, periodSize, dmaOfs, beRunning := 0, 0, 0, false;
      disrc, disrcc, didst, didstc, dcon, dmasktrigOn := 0, 0, 0, 0, 0, false;
      ring := Initial(phyAddr);
    }

    method LoadDmaPeriod()
      requires SameRecord()
      modifies this`disrc, this`disrcc, this`didst, this`didstc, this`dcon, this`ring
      ensures Valid()
      ensures ring == LoadPeriod(old(ring))
      ensures disrc == phyAddr + dmaOfs && disrcc == 0 && didst == 0x5500_0010 && didstc == 3
      ensures dcon == Dcon(periodSize / 2)
    {
      disrc := phyAddr + dmaOfs;
      disrcc := MEMORY_BUS;
      didst := IIS_FIFO;
      didstc := FIFO_BUS;
      dcon := Dcon(periodSize / 2);
      ring := LoadPeriod(ring);
    }

    method DmaStart()
      requires Valid()
      modifies this`dmasktrigOn, this`ring
      ensures Valid() && ring == old(ring).(on := true) && dmasktrigOn
    {
      dmasktrigOn := true;
      ring := ring.(on := true);
    }

    method DmaStop()
      requires Valid()
      modifies this`dmasktrigOn, this`ring
      ensures Valid() && ring == old(ring).(on := false) && !dmasktrigOn
    {
      dmasktrigOn := false;
      ring := ring.(on := false);
    }

    /** Called by the core when a period has elapsed; with nothing left it stops the stream. */
    method PeriodElapsed(drained: bool)
      requires Valid()
      modifies this`beRunning, this`dmasktrigOn, this`ring
      ensures Valid()
      ensures ring == if drained then DmaRing.Trigger(old(ring), Command.Stop) else old(ring)
      ensures beRunning == (old(beRunning) && !drained) && dmasktrigOn == (old(dmasktrigOn) && !drained)
    {
      if drained {
        var _ := Trigger(Command.Stop);
      }
    }

    method Dma2Irq(drained: bool)
      requires Valid() && ring.pending
      modifies this`dmaOfs, this`beRunning, this`disrc, this`disrcc, this`didst, this`didstc, this`dcon, this`dmasktrigOn, this`ring
      ensures Valid()
      ensures ring == DmaRing.Irq(old(ring), drained)
      ensures dmaOfs == if old(dmaOfs) + periodSize >= bufferSize then 0 else old(dmaOfs) + periodSize
      ensures beRunning == (old(beRunning) && !drained)
      ensures beRunning ==> disrc == phyAddr + dmaOfs && dmasktrigOn
      ensures !beRunning ==> disrc == old(disrc) && dmasktrigOn == (old(dmasktrigOn) && !drained)
    {
      AdvanceOffset();
      PeriodElapsed(drained);
      LoadNext();
    }

    method AdvanceOffset()
      requires Valid()
      modifies this`dmaOfs, this`ring
      ensures Valid()
      ensures ring == DmaRing.Acknowledge(old(ring))
      ensures dmaOfs == if old(dmaOfs) + periodSize >= bufferSize then 0 else old(dmaOfs) + periodSize
    {
      dmaOfs := dmaOfs + periodSize;
      if dmaOfs >= bufferSize {
        dmaOfs := 0;
      }
      ring := DmaRing.Acknowledge(ring);
    }

    method LoadNext()
      requires Valid()
      modifies this`disrc, this`disrcc, this`didst, this`didstc, this`dcon, this`dmasktrigOn, this`ring
      ensures Valid()
      ensures ring == DmaRing.Continue(old(ring))
      ensures if beRunning then disrc == phyAddr + dmaOfs && dmasktrigOn
              else disrc == old(disrc) && dmasktrigOn == old(dmasktrigOn)
    {
      if beRunning {
        LoadDmaPeriod();
        DmaStart();
      } else {
        ring := ring.(lag := ring.lag + 1);
      }
    }

    method HwParams(totalBytes: nat, periodBytes: nat)
      requires Valid()
      modifies this`bufferSize, this`periodSize, this`ring
      ensures Valid()
      ensures ring == Apply(old(ring), Step.HwParams(totalBytes, periodBytes))
      ensures bufferSize == totalBytes && periodSize == periodBytes
    {
      bufferSize := totalBytes;
      periodSize := periodBytes;
      ring := ring.(bufferSize := totalBytes, periodSize := periodBytes, prepared := false);
    }

    method Prepare()
      requires Valid()
      modifies this`dmaOfs, this`beRunning, this`disrc, this`disrcc, this`didst, this`didstc, this`dcon, this`ring
      ensures Valid()
      ensures ring == DmaRing.Prepare(old(ring))
      ensures dmaOfs == 0 && !beRunning && disrc == phyAddr && dcon == Dcon(periodSize / 2)
    {
      dmaOfs := 0;
      beRunning := false;
      ring := Rewound(ring);
      LoadDmaPeriod();
    }

    method Trigger(cmd: Command) returns (ret: int)
      requires Valid()
      modifies this`beRunning, this`dmasktrigOn, this`ring
      ensures Valid()
      ensures ring == DmaRing.Trigger(old(ring), cmd)
      ensures cmd in {Start, Resume, PauseRelease} ==> ret == 0 && beRunning && dmasktrigOn
      ensures cmd in {Stop, Suspend, PausePush} ==> ret == 0 && !beRunning && !dmasktrigOn
      ensures cmd == Unknown ==> ret == -22 && beRunning == old(beRunning) && dmasktrigOn == old(dmasktrigOn)
    {
      ret := 0;
      if Starts(cmd) {
        beRunning := true;
        ring := ring.(running := true);
        DmaStart();
      } else if Stops(cmd) {
        beRunning := false;
        ring := ring.(running := false);
        DmaStop();
      } else {
        ret := -22;
      }
    }

    /** The channel's part: it has transferred the period, turns itself off and raises its interrupt. */
    method ChannelCompletes()
      requires Valid() && dmasktrigOn
      modifies this`dmasktrigOn, this`ring
      ensures Valid()
      ensures ring == Complete(old(ring))
    {
      dmasktrigOn := false;
      ring := Complete(ring);
    }

    /** Whatever the core, the channel and the interrupt controller do next. */
    method Perform(step: Step)
      requires Valid() && Enabled(ring, step)
      modifies this
      ensures Valid()
      ensures ring == Apply(old(ring), step)
    {
      match step
      case HwParams(totalBytes, periodBytes) => HwParams(totalBytes, periodBytes);
      case PrepareStep => Prepare();
      case TriggerStep(cmd) => var _ := Trigger(cmd);
      case CompleteStep => ChannelCompletes();
      case IrqStep(drained) => Dma2Irq(drained);
    }

    /** So what is proved of runs of the state machine holds of the driver. */
    method PerformAll(steps: seq<Step>)
      requires Valid() && ValidRun(ring, steps)
      modifies this
      ensures Valid()
      ensures ring == DmaRing.Run(old(ring), steps)
    {
      ghost var start := ring;
      for i := 0 to |steps|
        invariant Valid()
        invariant ValidRun(ring, steps[i..])
        invariant DmaRing.Run(ring, steps[i..]) == DmaRing.Run(start, steps)
      {
        assert steps[i..][1..] == steps[i + 1..];
        Perform(steps[i]);
      }
    }

    /** The stream position in frames of `frameBytes` bytes. */
    method Pointer(frameBytes: nat) returns (frames: nat)
      requires Valid() && frameBytes > 0
      ensures frames * frameBytes <= dmaOfs < (frames + 1) * frameBytes
    {
      frames := dmaOfs / frameBytes;
    }
  }
}
