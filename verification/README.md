# Driver models for the JZ2440 sound and display drivers

This project models five Linux drivers for the S3C2410/S3C2440 and proves what they are there to
do, over whole runs:

- **Two codec links.** The UDA1341 and WM8976 drivers toggle GPIO pins to write registers that
  cannot be read back, and answer reads from a cache. `Gpio` is the data register the pins belong
  to, with a record of every level the three wires took. `L3Bus` and `ThreeWire` define what the
  drivers put on the wires and, separately, a receiver that knows only the wires. `Uda1341` and
  `Wm8976` define the chip behind each receiver and the driver with its cache in front.
- **The playback DMA ring.** `DmaRing` is the state machine of prepare, trigger, completion and
  completion interrupt; `PlaybackDma` is the driver with its record and channel registers.
- **The I2S prescaler search** (`IisPrescaler`).
- **The LCD palette protocol.** `Palette` interleaves any number of writers with the frame-sync
  interrupt over palette registers whose writes may fail; `PaletteDriver` is the driver.
- **LCD modes.** `Framebuffer` checks and programs modes and sizes the video memory, `Colour`
  packs pixels, `PixelClock` computes the clock divisor, `LcdControl` follows the mode registers
  through any run, `LcdTiming` packs sizes and margins, and `Probe` is the unwind ladder of the probe
  function.

`Arith` holds facts about division and `Words` the kernel's unsigned integers.

Each driver is a class whose methods change its fields and are specified by functions over values;
the theorems are lemmas about those functions, over every input and every run.

## Conventions

- Register values that are only combined bit by bit are bit-vectors; sizes, rates and values that
  are shifted arithmetically are integers, with the width written out where it can be exceeded. An
  OR of fields that cannot overlap is then a sum (`PlaybackDma.Dcon`, `Wm8976.WordOf`,
  `IisPrescaler.Prescalers`).
- Parameters named `stored`, `results`, `drained`, `frames` and `fails` are choices of the
  environment: what a palette register holds after a write, whether the ALSA core stops the stream
  from within the interrupt, which interrupts come in between, which steps of probe fail.
- The codec chips follow the layout the driver's own tables, constants and comments give, the reset
  bit of STATUS0 included. A chip register is absent from the model's map while it is at its reset
  value. The LCD register layout (`LcdControl`, `LcdTiming`) is that of the controller; the kernel
  header with these constants is not part of this model.
- `DmaRing.InCoreOrder` is the order in which the ALSA core makes its calls. A period loaded replaces
  whatever the channel had left of the one before.
- The processor has one core: the interrupt handler runs to its end, and a writer with interrupts
  off is not interrupted. A writer may be interrupted between its raw write and its scheduling.
- The header of `check_var` says that values that do not fit are rounded up. The code only accepts
  exact matches with a display, and so does the model.

## Properties that hold only under a condition

Some promises fail for some inputs. For these the exact condition is proved, with a failing input.

- A UDA1341 write reaches its own register, and only that, if and only if the value leaves the
  register's selector bits as the driver sets them and is not a reset (`Uda1341.LandsIffProper`). A
  volume write does if and only if the setting is in 0..63 modulo 256
  (`Uda1341.VolumeLandsIffInRange`; failing: `Uda1341.LoudVolumeMisses`). The driver's own first write
  is a reset (`Uda1341.InitAgrees`).
- Neither codec's cache notices a reset (`Uda1341.ResetLeavesCacheStale`,
  `Wm8976.ResetLeavesCacheStale`); the agreement theorems are about the registers written since.
- A first transmission decodes exactly if and only if no half-received byte (L3) or low chip select
  (3-wire) was left from before (`L3Bus.DecodesExactlyUnlessStale`, `ThreeWire.DecodesExactlyIfIdle`;
  failing: `L3Bus.StaleByteIsHeard`, `ThreeWire.LowSelectIsHeard`). It keeps the line discipline inside
  bytes if and only if the first rise of the clock leaves the receiver between bytes
  (`L3Bus.DisciplinedIffSettled`).
- A DMA stream stays in its ring if and only if the core's calls avoid two races with the completion
  interrupt: going on after a pause that met a waiting interrupt, and preparing before a waiting one
  is taken (`DmaRing.RingIffNoRace`; failing: `DmaRing.LatePauseSkips`, `DmaRing.EarlyPrepareSkips`).
- The colour requested last for a register is kept, in every continuation, if and only if no writer
  starts while another has a different colour for the same register in flight
  (`Palette.KeptIffNoConflict`; failing: `Palette.ConflictLosesRequest`).
- The scan of a single display stays in its memory if and only if width times height times depth
  fits thirty-two bits (`Framebuffer.ScanFitsExactly`; failing: `Framebuffer.HugeDisplayOverruns`).
- The divisor a TFT panel gets from an activation with a clean clock field is within one unit of the
  true one if and only if that is at least one and less than 2049, because the field has ten bits
  (`LcdControl.TftClockWithinOne`; failing: `LcdControl.TftClockWraps`). For an STN panel it is from
  three to below 2047 (`LcdControl.StnClockWithinOne`).
- An activation programs the divisor just computed if and only if the divisors left over from
  activations since the last mode check have no bit outside it (`LcdControl.FreshIffSubset`), and the
  same holds of the one inside a cpufreq transition (`LcdControl.CpuFreqFreshIffSubset`). The cpufreq
  path does not check first (failing: `LcdControl.CpuFreqMixes`).
- The controller sees the sizes and margins of a TFT mode if and only if each fits its field
  (`LcdTiming.TimingArrivesIffFits`; failing: `LcdTiming.WideSyncSpills`). A 4-bit STN panel is never recognised as one
  (`LcdTiming.Stn4IsNeverSeen`).
- A failed probe gives everything back if and only if it did not get past a clock that could not be
  enabled, whose result the code does not look at: otherwise the ladder disables a clock that was
  never enabled (`Probe.ProbeRun.Run`; failing: `Probe.UnenabledClockIsDisabled`). The code does not
  look at its second allocation either; there a probe ends in a null pointer, holding nothing.

## Model

| member | source | states |
|---|---|---|
| Gpio.PinsAre | ALSA/codec/uda1341.c:235-269 | bit 2 is mode or chip select, bit 3 data, bit 4 clock, and every other bit belongs to somebody else |
| Gpio.GpioBank.SetSel | ALSA/codec/uda1341.c:235-245 | drives the mode (or CSB) line alone: the other two lines and every other GPIO bit stay as they were |
| Gpio.GpioBank.SetClk | ALSA/codec/uda1341.c:247-257 | drives the clock line alone |
| Gpio.GpioBank.SetDat | ALSA/codec/uda1341.c:259-269 | drives the data line alone |
| Gpio.GpioBank.SendBit | ALSA/codec/wm8976.c:171-184 | one bit is clock low, data, clock high |
| L3Bus.ByteArrives | ALSA/codec/uda1341.c:272-285 | an L3 receiver collects exactly the byte sent, LSB first, whatever its shift register held, as address or data by the mode line |
| L3Bus.FrameArrives | ALSA/codec/uda1341.c:287-309 | from any pin and receiver state one l3_write is received as its own address and data and leaves all lines high |
| L3Bus.FramesArrive | ALSA/codec/uda1341.c:287-309 | the pin trace of any sequence of l3_write calls decodes to exactly that sequence, after a stale byte if there was one |
| L3Bus.DecodesExactlyUnlessStale | ALSA/codec/uda1341.c:289-296 | it decodes to exactly the sequence if and only if the first clock edge does not complete a stale data byte |
| L3Bus.StaleByteIsHeard | ALSA/codec/uda1341.c:289-292 | seven bits left from before make the first edge deliver a frame nobody sent |
| L3Bus.FramesDisciplined | ALSA/codec/uda1341.c:272-309 | over any run, from any pin state, the mode line moves only while the clock is high and rising edges find settled lines |
| L3Bus.DisciplinedIffSettled | ALSA/codec/uda1341.c:272-309 | over any run data moves only while the clock is low within bytes if and only if the first rise of the clock leaves the receiver between bytes |
| L3Bus.L3Master.SendByte | ALSA/codec/uda1341.c:272-285 | the loop produces the byte's trace and no other change |
| L3Bus.L3Master.SendFrame | ALSA/codec/uda1341.c:287-309 | the trace of one frame, all lines high at the end, all other GPIO bits kept |
| L3Bus.L3Master.Write | ALSA/codec/uda1341.c:287-309 | all the wires ever went through is the frames sent, in order |
| Uda1341.SlotsAreDistinct | ALSA/codec/uda1341.c:103-152 | different register numbers stand for different chip registers |
| Uda1341.PlainBytes | ALSA/codec/uda1341.c:325-337 | the address and data byte each of the six plain registers is sent as |
| Uda1341.ExtendedBytes | ALSA/codec/uda1341.c:325-333 | the two address and data bytes each of the six extended registers is sent as |
| Uda1341.WriteLands | ALSA/codec/uda1341.c:325-337 | on any chip a proper write that is no reset puts its payload into the register named and changes no other; extended ones through the two-byte address latch |
| Uda1341.ResetClears | ALSA/codec/uda1341.c:22 | a write to STATUS0 with the reset bit leaves nothing but its own payload |
| Uda1341.LandsIffProper | ALSA/codec/uda1341.c:329-337 | a write lands on every chip if and only if the value does not clash with the selector bits and does not reset the chip |
| Uda1341.CacheTracksChip | ALSA/codec/uda1341.c:312-341 | after any sequence of proper writes, resets included, each register written since the last reset holds the payload of the last value, as the cache does; others are at their defaults after a reset, and unchanged without one |
| Uda1341.ResetLeavesCacheStale | ALSA/codec/uda1341.c:368 | a reset empties the other registers of the chip and leaves their cache entries |
| Uda1341.CacheEqualsChip | ALSA/codec/uda1341.c:321-337 | the cache entry is the chip register if and only if the last value fits its field |
| Uda1341.ChipOnTheWireTracksCache | ALSA/codec/uda1341.c:272-341 | end to end, from any pin, receiver and chip state: the chip listening to the wires of any sequence of writes agrees with the cache on every register written since the last reset |
| Uda1341.VolumeCached | ALSA/codec/uda1341.c:175-199 | get inverts put exactly for settings in -192..63 |
| Uda1341.VolumeRoundTrip | ALSA/codec/uda1341.c:175-199 | get returns the last put, whatever else was written before and since; within 0..63 the chip holds its complement, exactly until a reset |
| Uda1341.VolumeLandsIffInRange | ALSA/codec/uda1341.c:188-199 | a volume write reaches the volume register on every chip if and only if the setting is in 0..63 modulo 256 |
| Uda1341.LoudVolumeMisses | ALSA/codec/uda1341.c:194 | a setting of 64 goes into the extended register addressed last |
| Uda1341.InitAgrees | ALSA/codec/uda1341.c:368-373 | the initial writes reset the chip; the five registers they write then agree with the cache, the other seven are at defaults the cache does not learn |
| Uda1341.Codec.InitRegs | ALSA/codec/uda1341.c:368-373 | the five frames the initial writes put on the wire, and a listening chip that agrees with the cache after them |
| Uda1341.Codec.constructor | ALSA/codec/uda1341.c:345-357 | the cache starts from the default table |
| Uda1341.Codec.ReadReg | ALSA/codec/uda1341.c:224-232 | reads answer from the cache; unknown registers give unsigned -1 |
| Uda1341.Codec.WriteReg | ALSA/codec/uda1341.c:312-341 | caches the low byte, sends one frame or two, refuses unknown registers without effect |
| Uda1341.Codec.WriteAll | ALSA/codec/uda1341.c:312-341 | any sequence of writes by the driver is a run: its cache, its wire trace, and a chip listening to that trace that agrees with the cache |
| Uda1341.Codec.GetVol | ALSA/codec/uda1341.c:175-183 | both channels report the volume register inverted |
| Uda1341.Codec.PutVol | ALSA/codec/uda1341.c:188-199 | channel 0 alone is written, inverted |
| ThreeWire.SixteenShiftsReplaceAll | ALSA/codec/wm8976.c:170-187 | sixteen shifts leave exactly the word in the last sixteen bits |
| ThreeWire.WordArrives | ALSA/codec/wm8976.c:166-193 | from any pins and shift register one write latches exactly its word, after a stale one if CSB was low |
| ThreeWire.WordsArrive | ALSA/codec/wm8976.c:166-193 | any sequence of writes is latched as its sequence of words |
| ThreeWire.DecodesExactlyIfIdle | ALSA/codec/wm8976.c:166-168 | exactly that sequence if and only if CSB was idle high |
| ThreeWire.LowSelectIsHeard | ALSA/codec/wm8976.c:166-168 | with CSB low, what was shifted in before is latched as a word |
| ThreeWire.ThreeWireMaster.SendBits | ALSA/codec/wm8976.c:170-187 | the loop produces the word's bits MSB first and no other change |
| ThreeWire.ThreeWireMaster.SendWord | ALSA/codec/wm8976.c:166-193 | the whole trace of one word, lines high at the end, other GPIO bits kept |
| ThreeWire.ThreeWireMaster.Write | ALSA/codec/wm8976.c:166-193 | all the wires ever went through is the words sent, in order |
| Wm8976.WordFields | ALSA/codec/wm8976.c:156 | the word splits back into register number and nine-bit value |
| Wm8976.CacheTracksChip | ALSA/codec/wm8976.c:150-198 | after any sequence of writes to any chip, resets included, each register written since the last reset holds its low nine bits, and the cache its low eight; others are at their defaults after a reset, and unchanged without one |
| Wm8976.CacheIsLowByte | ALSA/codec/wm8976.c:101-109 | chip and cache agree modulo 256 on every such register |
| Wm8976.CacheEqualsChip | ALSA/codec/wm8976.c:154-161 | they are equal if and only if the ninth bit is clear |
| Wm8976.ResetLeavesCacheStale | ALSA/codec/wm8976.c:224-225 | a reset empties the chip and leaves the cache as it was |
| Wm8976.ChipOnTheWireTracksCache | ALSA/codec/wm8976.c:150-198 | end to end, from any pin, receiver and chip state: the chip listening to the wires agrees with the cache modulo 256 on every register written since the last reset |
| Wm8976.VolumeRoundTrip | ALSA/codec/wm8976.c:50-76 | each channel's get returns its own last put exactly when that was in 0..63, whatever else was written |
| Wm8976.VolumeOnChip | ALSA/codec/wm8976.c:63-76 | the chip holds both settings, with the update bit the cache loses |
| Wm8976.VolumeWordsUpdate | ALSA/codec/wm8976.c:69-73 | both words on the wire carry the update bit, whatever the setting |
| Wm8976.Codec.ReadReg | ALSA/codec/wm8976.c:101-109 | reads answer from the cache; unknown registers give unsigned -1 |
| Wm8976.Codec.WriteReg | ALSA/codec/wm8976.c:150-198 | caches the low byte, sends one word, refuses unknown registers without effect |
| Wm8976.Codec.WriteAll | ALSA/codec/wm8976.c:150-198 | any sequence of writes by the driver is a run: its cache, its wire trace, and a chip listening to that trace that agrees with the cache |
| Wm8976.Codec.InitRegs | ALSA/codec/wm8976.c:217-241 | the ten words the initial writes put on the wire, the reset first, and a listening chip that agrees with the cache after them |
| Wm8976.Codec.GetVol | ALSA/codec/wm8976.c:50-58 | the low six bits of each cached volume |
| Wm8976.Codec.PutVol | ALSA/codec/wm8976.c:63-76 | left then right, each with the update bit |
| DmaRing.AdvanceIsNextSlot | ALSA/platform/s3c2440_dma.c:107-109 | the wrap in the interrupt is addition modulo the buffer size |
| DmaRing.ApplyKeepsInv | ALSA/platform/s3c2440_dma.c:103-215 | no step in any order takes a prepared driver out of its ring |
| DmaRing.LoadsFollowRing | ALSA/platform/s3c2440_dma.c:77-127 | in every run the k-th load since prepare starts at base plus ((k + lag) period) mod buffer, the lag being the interrupts that loaded nothing |
| DmaRing.OffsetStaysInside | ALSA/platform/s3c2440_dma.c:77-127 | in every run the offset is a whole number of periods below the buffer size and every range loaded lies in the allocation |
| DmaRing.PlaysRing | ALSA/platform/s3c2440_dma.c:77-215 | in every run in the order of the core without either race the k-th period loaded since prepare is the k-th of the ring, and so is the k-th played: no gap, overlap or repeat |
| DmaRing.PlaysRingOfSizes | ALSA/platform/s3c2440_dma.c:149-182 | for the sizes b and p of the last hw_params call, followed by a prepare, the k-th period loaded and the k-th played start at the base plus k p modulo b |
| DmaRing.RingIffNoRace | ALSA/platform/s3c2440_dma.c:103-215 | after any such run, a step in the order of the core keeps every clean continuation in the ring if and only if it is neither race |
| DmaRing.LapTilesBuffer | ALSA/platform/s3c2440_dma.c:77-109 | each lap covers every byte of the buffer in exactly one period |
| DmaRing.PointerIsCurrentPeriod | ALSA/platform/s3c2440_dma.c:217-221 | in such a run the position reported is the start of the period playing or about to play, or of the one just played |
| DmaRing.LateResumeReplays | ALSA/platform/s3c2440_dma.c:192-198 | resume does not reload: after a pause that met a waiting completion interrupt it replays the last period |
| DmaRing.LatePauseSkips | ALSA/platform/s3c2440_dma.c:103-126 | such a pause is in the order of the core; period 0 is then played twice and period 2 loaded next |
| DmaRing.EarlyPrepareSkips | ALSA/platform/s3c2440_dma.c:169-182 | a prepare before a waiting completion interrupt is taken makes the stream play period 2 where period 1 belongs |
| PlaybackDma.DconFields | ALSA/platform/s3c2440_dma.c:87 | the count field times two is the period and does not reach the control bits |
| PlaybackDma.PlaybackDma.LoadDmaPeriod | ALSA/platform/s3c2440_dma.c:77-88 | programs base plus offset, the I2S FIFO, both bus controls, control and count |
| PlaybackDma.PlaybackDma.DmaStart | ALSA/platform/s3c2440_dma.c:90-94 | turns the channel on without loading |
| PlaybackDma.PlaybackDma.DmaStop | ALSA/platform/s3c2440_dma.c:96-100 | turns the channel off |
| PlaybackDma.PlaybackDma.Dma2Irq | ALSA/platform/s3c2440_dma.c:103-127 | advances, may be stopped from within, and reloads and restarts only if still running |
| PlaybackDma.PlaybackDma.HwParams | ALSA/platform/s3c2440_dma.c:149-167 | the buffer size is the total, the period size the period, and nothing else changes |
| PlaybackDma.PlaybackDma.Prepare | ALSA/platform/s3c2440_dma.c:169-182 | back to offset 0, not running, first period loaded |
| PlaybackDma.PlaybackDma.Trigger | ALSA/platform/s3c2440_dma.c:184-215 | starts or stops without loading; an unknown command is an error without effect |
| PlaybackDma.PlaybackDma.Pointer | ALSA/platform/s3c2440_dma.c:217-221 | the frame the offset lies in |
| PlaybackDma.PlaybackDma.PerformAll | ALSA/platform/s3c2440_dma.c:103-215 | any sequence of calls, completions and interrupts takes the driver through exactly the run of the state machine |
| IisPrescaler.IisRegs.Search | ALSA/platform/s3c2440_iis.c:45-83 | no divisor gives a rate nearer to the one asked for, none before the one returned as near; with all off by 0xffff or more it returns 0 |
| IisPrescaler.IisRegs.HwParams | ALSA/platform/s3c2440_iis.c:63-100 | programs the choice and the mode of the format; refuses other formats before touching the controller |
| IisPrescaler.BothPrescalers | ALSA/platform/s3c2440_iis.c:84 | both five-bit fields hold the choice |
| IisPrescaler.TwoDivisions | ALSA/platform/s3c2440_iis.c:77 | dividing by 384 and then by i+1 is dividing once by 384(i+1) |
| IisPrescaler.ErrorIsDistance | ALSA/platform/s3c2440_iis.c:25-82 | an error of at most e means a rate from fs - e to fs + e |
| IisPrescaler.ChoiceIsNearest | ALSA/platform/s3c2440_iis.c:74-83 | whatever error below 0xffff another divisor keeps to, above or below, the choice keeps to it too, and strictly if that one comes first |
| IisPrescaler.NeighboursAreBest | ALSA/platform/s3c2440_iis.c:74-83 | for every clock and rate the least of the 32 errors is attained beside the exact divisor |
| IisPrescaler.NeighbourBound | ALSA/platform/s3c2440_iis.c:70-83 | the better neighbour's error e satisfies 2qe < fs + q |
| IisPrescaler.ChoiceBound | ALSA/platform/s3c2440_iis.c:74-84 | for rates up to 96000 and exact divisors q from 1 to 31 the choice is the first best, and 2q times its offset lies between -(fs + q) and fs + q |
| Palette.ApplyKeepsInv | device_tree/lcd/s3c2410fb.c:456-533 | every step of every writer and of the interrupt keeps the protocol's invariant |
| Palette.NoUpdateLost | device_tree/lcd/s3c2410fb.c:456-533 | in every interleaving, with any failing writes, each entry is pending with the value scheduled last, or cleared with the hardware holding it, or has a writer in flight |
| Palette.NoRequestLost | device_tree/lcd/s3c2410fb.c:488-533 | in every run without a conflict the value requested last is pending, or held, or has a writer in flight |
| Palette.KeptIffNoConflict | device_tree/lcd/s3c2410fb.c:488-533 | after any such run, a step keeps every request in every continuation without a conflict if and only if it is no conflict: a start while another writer has a different colour for the register in flight |
| Palette.ConflictLosesRequest | device_tree/lcd/s3c2410fb.c:522-523 | two overlapping writers on one register, the later scheduled first, end with nobody in flight and the earlier colour pending |
| Palette.PendingIsDeliverable | device_tree/lcd/s3c2410fb.c:465-474 | the ready flag is set exactly when an entry is pending, and then the interrupt is unmasked |
| Palette.FrameSyncProgress | device_tree/lcd/s3c2410fb.c:744-768 | an interrupt takes exactly the verified writes off the pending count |
| Palette.FrameSyncSettles | device_tree/lcd/s3c2410fb.c:744-785 | with no writer in flight, one interrupt brings all registers up to date if and only if all its writes stick |
| Palette.FramesSettle | device_tree/lcd/s3c2410fb.c:744-785 | over any number of interrupts a pending entry is cleared if and only if one of its writes stuck, and is unchanged until then |
| Palette.RegisterSettlesIffStuck | device_tree/lcd/s3c2410fb.c:744-785 | with no writer in flight the register then holds the colour scheduled last, exactly in that case |
| PaletteDriver.LcdPalette.constructor | device_tree/lcd/s3c2410fb.c:975-976 | nothing is pending after probe |
| PaletteDriver.LcdPalette.WritePalette | device_tree/lcd/s3c2410fb.c:744-768 | the loop tries every pending entry, clears those that read back, and sets ready if one is left |
| PaletteDriver.LcdPalette.Irq | device_tree/lcd/s3c2410fb.c:770-785 | a pending frame sync is one step of the protocol, and is acknowledged in both registers; otherwise nothing changes |
| PaletteDriver.LcdPalette.Poke | device_tree/lcd/s3c2410fb.c:522 | the raw write leaves whatever the hardware keeps |
| PaletteDriver.LcdPalette.Schedule | device_tree/lcd/s3c2410fb.c:456-477 | buffers the colour and unmasks the frame sync alone if nothing was ready |
| PaletteDriver.LcdPalette.SetColReg | device_tree/lcd/s3c2410fb.c:488-533 | true colour fills the pseudo palette; pseudo colour runs the protocol with interrupts taken in between and leaves the leading bits of red, green and blue pending in 5-6-5; other visuals are refused |
| PaletteDriver.PaletteColourBits | device_tree/lcd/s3c2410fb.c:518-520 | five leading bits of red on top, six of green, five of blue |
| Colour.Palette565IsPack | device_tree/lcd/s3c2410fb.c:516-520 | the hardware palette's masks and shifts are 5-6-5 packing in sixteen bits |
| Framebuffer.TrueColourIsLossless | device_tree/lcd/s3c2410fb.c:178-245 | in every mode shown in true colour the fields are disjoint, inside the pixel, and give back the leading bits of each channel |
| Framebuffer.FormatsAre | device_tree/lcd/s3c2410fb.c:181-245 | where each channel lies at each depth, 5-6-5 or 5-5-5 by the FRM565 bit of the display |
| Framebuffer.ControllerReadsFormat | device_tree/lcd/s3c2410fb.c:217-234 | at 16 bits the pixels of a TFT mode are packed as 5-6-5 if and only if the activated controller is told to read 5-6-5 |
| Framebuffer.FramebufferDriver.SetColour | device_tree/lcd/s3c2410fb.c:488-533 | setcolreg on the current mode, whose format is always one that can be packed |
| Framebuffer.ScanFitsMemory | device_tree/lcd/s3c2410fb.c:1000-1009 | the scan of any mode accepted for a table, if the product of the display chosen fits thirty-two bits, stays within memory sized for the table |
| Framebuffer.ScanFitsExactly | device_tree/lcd/s3c2410fb.c:1000-1009 | for the single display of probe that is the exact condition |
| Framebuffer.ScannedIs | device_tree/lcd/s3c2410fb.c:448 | the scan is whole bytes of each line times all lines |
| Framebuffer.HugeDisplayOverruns | device_tree/lcd/s3c2410fb.c:1002-1006 | a display of 65535 by 65535 at 32 bits is scanned far past its memory |
| Framebuffer.ScanEndsInside | device_tree/lcd/s3c2410fb.c:72-93 | for any accepted mode the end address does not wrap and lies within start and end of the memory |
| Framebuffer.FramebufferDriver.CheckVar | device_tree/lcd/s3c2410fb.c:124-247 | accepts exactly the modes whose width, height and depth a display of the default type has, the default first and then the first; fills in what the display decides and resets the registers; else changes nothing |
| Framebuffer.FramebufferDriver.SetLcdAddr | device_tree/lcd/s3c2410fb.c:72-93 | start and end of the scan and page width in half-words |
| Framebuffer.FramebufferDriver.ActivateVar | device_tree/lcd/s3c2410fb.c:375-423 | ORs depth, divisor and enable into LCDCON1 and programs it with LCDCON5 and the addresses; on a TFT panel the timing registers hold the sizes and margins of the mode exactly if they fit |
| Framebuffer.FramebufferDriver.SetPar | device_tree/lcd/s3c2410fb.c:430-454 | visual and line length of the mode, then activation; the timing registers of a TFT panel hold the sizes and margins exactly if they fit |
| Framebuffer.FramebufferDriver.SetMode | device_tree/lcd/s3c2410fb.c:124-454 | check_var, set_par and set_lcdaddr together: an accepted mode whose product fits is scanned inside the video memory, with the timing of the display chosen; a refused one changes nothing |
| Framebuffer.FramebufferDriver.BringUp | device_tree/lcd/s3c2410fb.c:1000-1027 | from sizing the memory to the picture: the default mode is accepted and scanned inside the memory allocated |
| Framebuffer.FramebufferDriver.CpuFreqTransition | device_tree/lcd/s3c2410fb.c:789-809 | acts after a slow-down and before a speed-up, without a mode check |
| Framebuffer.FramebufferDriver.SizeMemory | device_tree/lcd/s3c2410fb.c:1000-1009 | the loop finds the largest footprint in the table |
| PixelClock.CalcIsExact | device_tree/lcd/s3c2410fb.c:99-116 | shift and division give floor(clk pixclk / 10^12), never truncated |
| PixelClock.FieldRounding | device_tree/lcd/s3c2410fb.c:383-400 | what ten bits hold of the computed CLKVAL is within one of the real ratio if and only if that is at least one and less than 2049 |
| PixelClock.StnFieldRounding | device_tree/lcd/s3c2410fb.c:383-400 | for an STN panel, whose divisor is 2 CLKVAL, the same from three to below 2047 |
| LcdControl.ActivateFields | device_tree/lcd/s3c2410fb.c:375-423 | activation adds the divisor to the clock field and keeps the panel type |
| LcdControl.ActivateTwice | device_tree/lcd/s3c2410fb.c:375-423 | activating again with unchanged mode and clock changes nothing |
| LcdControl.DepthIsProgrammed | device_tree/lcd/s3c2410fb.c:319-423 | with the depth field clear an activation programs the code of the depth, and turns the video on |
| LcdControl.TftCodes | device_tree/lcd/s3c2410fb.c:319-345 | the codes of the TFT depths are 8 to 13 |
| LcdControl.StnCodes | device_tree/lcd/s3c2410fb.c:266-283 | the codes of the other depths are 0 to 4 |
| LcdControl.ByteOrder16 | device_tree/lcd/s3c2410fb.c:335-339 | at 16 bits half-words are swapped, bytes not, and nothing else changes |
| LcdControl.ByteOrder8 | device_tree/lcd/s3c2410fb.c:329-334 | at 8 bits bytes are swapped, half-words not, the palette is 5-6-5 |
| LcdControl.ByteOrder32 | device_tree/lcd/s3c2410fb.c:340-345 | at 32 bits nothing is swapped |
| LcdControl.RunAccumulates | device_tree/lcd/s3c2410fb.c:174-176 | in every run the clock field is the union of the divisors activated since the last check |
| LcdControl.FreshIffSubset | device_tree/lcd/s3c2410fb.c:400 | an activation programs the fresh divisor if and only if no left-over bit is outside it |
| LcdControl.CpuFreqFreshIffSubset | device_tree/lcd/s3c2410fb.c:789-809 | so does the activation inside a cpufreq transition, for the divisor of the new rate |
| LcdControl.TftClockWithinOne | device_tree/lcd/s3c2410fb.c:383-400 | the clock field after an activation from a clean field is right to within one unit if and only if the real ratio is at least one and less than 2049 |
| LcdControl.StnClockWithinOne | device_tree/lcd/s3c2410fb.c:383-400 | the same for an STN panel, from three to below 2047 |
| LcdControl.TftClockWraps | device_tree/lcd/s3c2410fb.c:400 | a 62.5 kHz pixel clock at 133 MHz programs 80 instead of 2128 |
| LcdControl.CarefulIsFresh | device_tree/lcd/s3c2410fb.c:313-423 | when clock and mode change only between a check and the first activation, the field is the fresh divisor |
| LcdControl.FieldIsDivisor | device_tree/lcd/s3c2410fb.c:400 | the field keeps the low ten bits of the divisor |
| LcdControl.CpuFreqMixes | device_tree/lcd/s3c2410fb.c:789-809 | the cpufreq path leaves a mixture of two divisors |
| LcdTiming.TimingArrivesIffFits | device_tree/lcd/s3c2410fb.c:358-367 | the controller reads back the sizes and margins of a TFT mode from LCDCON2 to LCDCON4 if and only if each fits its field |
| LcdTiming.WideSyncSpills | device_tree/lcd/s3c2410fb.c:358-361 | a vertical sync of 65 lines reads back as one and changes the lower margin |
| LcdTiming.StnHorizontalArrives | device_tree/lcd/s3c2410fb.c:302-304 | the horizontal register of an STN panel reads back if and only if blanking and size fit |
| LcdTiming.StnSizeIs | device_tree/lcd/s3c2410fb.c:259-282 | its size is an eighth of the width, three eighths in colour |
| LcdTiming.Stn4IsNeverSeen | device_tree/lcd/s3c2410fb.c:258-264 | the mask keeps a 4-bit STN panel from ever being recognised |
| Probe.ReleasedExactlyOnce | device_tree/lcd/s3c2410fb.c:914-1065 | a failed probe released exactly once each resource it acquired, and acquired none twice |
| Probe.ProbeRun.EnableClock | device_tree/lcd/s3c2410fb.c:993 | probe goes on whether or not the clock could be enabled |
| Probe.ProbeRun.AcquireFirst | device_tree/lcd/s3c2410fb.c:914-991 | up to the clock each failing step jumps to its own label, with exactly what the steps before it obtained |
| Probe.ProbeRun.AcquireRest | device_tree/lcd/s3c2410fb.c:993-1040 | so does each after it, but for a clock that could not be enabled |
| Probe.UnwoundIff | device_tree/lcd/s3c2410fb.c:1052-1065 | from each label the ladder gives everything back if and only if it does not pass a clock that was not enabled |
| Probe.UnenabledClockIsDisabled | device_tree/lcd/s3c2410fb.c:993-1058 | the log of a probe without clock and video memory disables a clock it never enabled |
| Probe.ProbeRun.Unwind | device_tree/lcd/s3c2410fb.c:1052-1065 | from each label the ladder releases everything below it, latest first |
| Probe.ProbeRun.Run | device_tree/lcd/s3c2410fb.c:855-1065 | each resource is acquired exactly when every step up to its own succeeds; a failed probe has given everything back if and only if it did not get past a clock that could not be enabled |

## Left out

- Waits, printing, device registration and ioremap: kernel calls without logic of their own.
- The GPIO function codes set before the first write to a codec: two bit masks.
- `sendbyte` takes an unsigned int of which only the low eight bits go out; the model passes a byte.
- Both `hw_params` of the codecs return at once.
- The fb_var_screeninfo passed by pointer is a record that goes in and comes out.
- The backlight and blanking functions and the debug attribute: single bits and strings.
- The remove function releases a device-managed interrupt; the release claim is about probe.
- Suspend and resume: an enable bit, and one more activation of an unchanged mode.
- GPIO set-up of the I2S pins, the I2S trigger and its start and stop: single bits.
- The machine driver, device trees, the I2C user-space header and the teaching drivers elsewhere in the repository: data, wrappers and plumbing.
- The wrap-around of a DMA offset with sizes the core does not pass: the ring theorems are about the sizes its constraints allow.
- What a channel does when turned on with a completed period is modelled as transferring that period again.
