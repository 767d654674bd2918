# VGA-Video-Player testbench, modelled in Dafny

The VGA Video Player is a Tiny Tapeout design. It streams video frames
from a quad-SPI flash chip and drives a 640x480 VGA output. Its cocotb
testbench `test_project` (file `test/test.py`) plays the role of the flash
chip and of the monitor:

- it waits for the design to pull the flash chip select low;
- it checks the command the design sends: the Quad Output Fast Read
  opcode 0x6B, most significant bit first, then 32 dummy cycles with the
  hold line enabled and high, then the hold line released;
- it feeds the design one 4-bit nibble of video data each time the
  design raises the flash serial clock, and gives up after 50000 cycles
  without it;
- during the data stream, on each falling clock edge of the wait for the
  serial clock, it samples the 8-bit colour output, repacks
  it as a 3-3-2 colour byte (`get_rgb`), and keeps the bytes of the
  visible 640x480 area of each 800x525 frame, after skipping the first
  35318 cycles of pipeline latency.

The model keeps that structure:

- `Bits`, `Dut`, `Faults`: single pins of the design's 8-bit ports; the
  design as a recorded trace of its output pins, one sample per clock
  edge; the ways the test fails.
- `Colour`: `get_rgb` as a pure function on bytes, with its inverse.
- `NibbleIo`: `set_4bit_io` as a pure function on the levels of the two
  input ports.
- `QspiCheck`: the pure specification of the command-phase check. It
  gives the first fault in what the testbench samples, or a pass.
- `Raster`: the pure specification of the colour sampler, as a step
  function on the tracker state (leading-blank count, column, row, image
  so far).
- `SclkWait`: the pure specification of the per-nibble wait and the
  whole data stream.
- `Testbench`: the test as a class. Its fields are the clock edge the
  test is at, the input port levels, the number of flash-simulator calls,
  the SCLK wait's counter `timeoutCnt` and the tracker variables. Its methods follow the testbench's loops step
  by step. Each method is proved against the pure specifications, and
  `Run` is proved to produce exactly the `Verdict` of the run.

Time is counted in falling clock edges after reset. `fall(n)` holds the
pins the test reads at falling edge `n`. `rise(n)` holds the pins at the
rising edge that follows it. The flash simulator's `clock_data` is an
input: `source(k)` is the value its k-th call returns.

## Model

| member | source | states |
|---|---|---|
| Colour.GetRgbChannels | test/test.py:16-24 | red (bits 2..0) moves to bits 7..5, green (bits 5..3) to bits 4..2, blue (bits 7..6) to bits 1..0 |
| Colour.GetRgb | test/test.py:16-24 | the channel-by-channel repacking equals the one-line 3-3-2 packing: red bits 2..0 to 7..5, green bits 5..3 to 4..2, blue bits 7..6 to 1..0 |
| Colour.GetRgbBits | test/test.py:16-24 | each output bit is exactly input bit `SourceBit(k)` |
| Colour.SourceBit | test/test.py:16-24 | the source bit of each output bit is a bit index 0..7 |
| Colour.SourceBitInjective | test/test.py:16-24 | no two output bits come from the same input bit, so the repacking permutes bits |
| Colour.RgbToOutput | test/test.py:16-24 | the inverse repacking puts each 3-3-2 channel back at the design's bit position |
| Colour.RgbRoundTrip | test/test.py:16-24 | undoing the repacking recovers the design's output byte |
| Colour.RgbSurjective | test/test.py:16-24 | every 3-3-2 byte is the colour of some output byte |
| Colour.GetRgbInjective | test/test.py:16-24 | distinct output bytes give distinct colours |
| NibbleIo.SplitNibbleValue | test/test.py:10-14 | the four lines carry `value mod 16` with IO_0 least significant, negative values included |
| NibbleIo.Assemble | test/test.py:10-14 | four line levels read as a binary number are below 16 |
| NibbleIo.SplitAssemble | test/test.py:10-14 | splitting the number four lines carry gives back those lines |
| NibbleIo.SplitNibble | test/test.py:10-14 | `set_4bit_io(dut, 0)`, as at line 123, pulls all four lines low |
| NibbleIo.SetNibble | test/test.py:10-14 | after the four pin writes, uio_in[3], ui_in[2], ui_in[3], uio_in[6] carry bits 0..3 of the value |
| NibbleIo.SetNibbleValue | test/test.py:10-14 | the design reads `value mod 16` off its data lines |
| NibbleIo.SetNibbleKeepsOtherPins | test/test.py:10-14 | every pin that is not one of the four data lines keeps its level |
| NibbleIo.SetNibbleOverwrites | test/test.py:10-14 | a second `set_4bit_io` fully replaces the first |
| NibbleIo.InputsDetermined | test/test.py:10-14 | port levels are fixed by the data lines and the other pins |
| Bits.MaskSelectsBit | test/test.py:56 | testing `x & (1 << k)` for non-zero reads bit k |
| QspiCheck.ExpectedBitOfOpcode | test/test.py:51-56 | the expected command-line levels are bits 7 down to 0 of 0x6B |
| QspiCheck.OpcodeMaskBit | test/test.py:56 | `instruction & (1 << (7 - i))` is set exactly when level 1 is expected at bit i |
| QspiCheck.WindowAt | test/test.py:54-76 | the sampled command window has 8 opcode bits and 32 enable and hold samples |
| QspiCheck.OpcodeSample | test/test.py:54-60 | opcode bit i is uio_out[3] at the i-th falling edge from chip select |
| QspiCheck.DummySample | test/test.py:64-71 | dummy cycle i samples uio_oe[6] and uio_out[6] at falling edge 8 + i |
| QspiCheck.ScanOpcode | test/test.py:54-60 | a failing opcode scan reports a mismatch at a bit it scanned |
| QspiCheck.ScanDummy | test/test.py:64-71 | a failing dummy scan reports an enable or hold fault at a cycle it scanned |
| QspiCheck.ScanOpcodePasses | test/test.py:54-60 | the opcode scan passes iff every remaining bit matches |
| QspiCheck.ScanOpcodeFirst | test/test.py:54-60 | a failing opcode scan names the first wrong bit with its expected and observed level |
| QspiCheck.OpcodeMatchesExactly | test/test.py:51-60 | matching every bit means reading exactly 0,1,1,0,1,0,1,1 |
| QspiCheck.ScanDummyPasses | test/test.py:64-71 | the dummy scan passes iff the hold line is enabled and high on every remaining cycle |
| QspiCheck.ScanDummyFirst | test/test.py:64-71 | a failing dummy scan names the first bad cycle, enable checked before the hold line |
| QspiCheck.CheckCommand | test/test.py:54-76 | the command-phase verdict is one of the four command faults, at a bit or cycle inside the window; a missing release reports uio_oe[6] still high |
| QspiCheck.CheckCommandPasses | test/test.py:54-76 | the command phase passes iff the opcode is 0x6B, the hold line is held for 32 cycles, and then released |
| QspiCheck.CheckCommandFirstFault | test/test.py:54-76 | a command-phase fault is the first violation, and every earlier check passed |
| Raster.Position | test/test.py:89-92 | the scan position of a tracker on the raster is below 800 x 525 |
| Raster.Colours | test/test.py:105 | one colour byte per sampled cycle |
| Raster.Step | test/test.py:104-122 | a cycle keeps column and row on the raster and appends at most one byte |
| Raster.StepAdvances | test/test.py:109-119 | once sampling, a cycle advances the scan position by one, modulo 800 x 525 |
| Raster.Steps | test/test.py:98-123 | running the tracker over a stretch of cycles keeps column and row on the raster |
| Raster.StepsSnoc | test/test.py:98-123 | one more cycle is one more step |
| Raster.StepsAppend | test/test.py:93-123 | two stretches of cycles run one after the other |
| Raster.StepsBounds | test/test.py:104-122 | the image only grows: the old image is a prefix of the new, longer by at most one byte a cycle |
| Raster.StepsPosition | test/test.py:109-119 | n sampled cycles advance the position by n, modulo 800 x 525 |
| Raster.FrameWrap | test/test.py:109-119 | a whole frame of cycles brings column and row back |
| Raster.LeadingBlankSkips | test/test.py:121-122 | in the leading blank a cycle only counts, and writes nothing |
| Raster.LeadingBlankThenSample | test/test.py:86-122 | exactly the first 35318 cycles are skipped, then sampling starts at (1, 1) |
| Raster.LineRun | test/test.py:104-114 | the rest of a line writes the colours of its visible columns, in order, and moves to the next row |
| Raster.LineBytesCons | test/test.py:105-107 | a line's bytes are the first cycle's colour, if visible, then the rest |
| Raster.LineThenRest | test/test.py:104-119 | a whole line, then the remaining cycles |
| Raster.LastLineRun | test/test.py:109-119 | the last line ends back at (1, 1) |
| Raster.FrameRun | test/test.py:104-119 | scanning to the end of the frame writes `FrameOf` and returns to (1, 1) |
| Raster.FrameOfLength | test/test.py:106-107 | 640 bytes remain per visible row |
| Raster.FrameOfVisible | test/test.py:106-107 | bytes are still to come only while the row is one of the 480 visible rows |
| Raster.FrameOfRowMajor | test/test.py:105-107 | image byte 640l + c is the colour of cycle 800l + c |
| Raster.FullFrame | test/test.py:104-122 | one full frame writes exactly 640 x 480 bytes, in row-major order, and returns to (1, 1) |
| SclkWait.ScanSclkMeaning | test/test.py:98-130 | a wait times out iff SCLK is low on all its 50000 cycles; a pulse ends it on the first high SCLK |
| SclkWait.ScanSclk | test/test.py:98-130 | a wait that sees a pulse ends after the current cycle and within its budget of 50000 cycles |
| SclkWait.WaitFrom | test/test.py:95-130 | a wait that sees a pulse takes 1 to 50000 cycles |
| SclkWait.WaitFromPulse | test/test.py:98-126 | a wait whose first high SCLK is at cycle n ends after n + 1 - start cycles |
| SclkWait.WaitFromTimeout | test/test.py:128-130 | a wait that sees SCLK low for 50000 cycles times out |
| SclkWait.StreamFrom | test/test.py:93-133 | a stream never ends before it starts; a stall is on a nibble still to be sent, at least one full 50000-cycle wait after the start |
| SclkWait.BudgetIsProduct | test/test.py:95 | the wait budget for n nibbles is n x 50000 cycles |
| SclkWait.StreamedBounds | test/test.py:93-133 | a complete stream takes 1 to 50000 cycles per nibble |
| SclkWait.StalledBounds | test/test.py:93-133 | a stall is on a nibble not yet sent, after 1 to 50000 cycles per earlier nibble |
| SclkWait.StalledWaitTimedOut | test/test.py:93-130 | the stalled nibble's own wait timed out |
| SclkWait.StallMeansSilence | test/test.py:93-130 | a stall means SCLK read low on the last 50000 cycles |
| Testbench.Observed | test/test.py:99-105 | one sampled colour output per falling edge |
| Testbench.StepsObservedSnoc | test/test.py:99-122 | the next falling edge is one more tracker step |
| Testbench.ObservedAppend | test/test.py:93-123 | samples from consecutive stretches of edges concatenate |
| Testbench.Verdict | test/test.py:47-133 | the outcome of a run; a timeout fault names a nibble below the total |
| Testbench.VerdictPasses | test/test.py:47-133 | a run passes iff the opcode reads 0x6B, the hold line is held then released, and every nibble's wait sees SCLK |
| Testbench.VerdictTimeout | test/test.py:93-130 | a timeout fault names a nibble below the total, and SCLK was low for its last 50000 cycles |
| Testbench.InstructionBit | test/test.py:51-56 | the bit test on 0x6B is set exactly when level 1 is expected |
| Testbench.TestProject.constructor | test/test.py:36-43 | after reset the ports are low, no nibble has been sent, and the tracker is at its start |
| Testbench.TestProject.AwaitSelect | test/test.py:47-49 | stops at the first falling edge with chip select low, from the current edge on |
| Testbench.TestProject.CheckOpcode | test/test.py:51-60 | the result is the opcode scan of the sampled window; on a pass, 8 edges later |
| Testbench.TestProject.CheckDummy | test/test.py:64-71 | the result is the dummy scan of the sampled window; on a pass, 31 edges later |
| Testbench.TestProject.CheckCommandPhase | test/test.py:51-76 | the result is `CheckCommand` of the window at chip select; the first nibble is driven after the dummy cycles, an opcode or dummy-cycle fault drives nothing, and the pins that are not data lines keep their level |
| Testbench.TestProject.SampleCycle | test/test.py:103-122 | the tracker variables take one `Step` |
| Testbench.TestProject.ClockCycle | test/test.py:99-123 | reads SCLK on the rising edge, takes one tracker step on the falling edge, drives the data lines to 0 |
| Testbench.TestProject.WaitForSclk | test/test.py:95-130 | ends on the first cycle SCLK reads high, or fails after 50000 low cycles; tracker and timeout counter agree |
| Testbench.TestProject.SendNibble | test/test.py:93-133 | one step of `StreamFrom`: a timeout stalls the stream on this nibble with the data lines driven low; otherwise the wait ended where `WaitFrom` says, and the inputs are the old ones with the next `clock_data` value written by `SetNibble` |
| Testbench.TestProject.StreamData | test/test.py:84-133 | ends as `StreamFrom` says, with `clock_data` called once per sent nibble, the tracker fed every sampled output, and the pins that are not data lines at their old level |
| Testbench.TestProject.CommandAndStream | test/test.py:47-133 | from the edge where chip select was seen low: the outcome is the `Verdict` for that edge; after a passing command phase it ends at the edge `StreamFrom` gives, with the tracker and the `clock_data` count as in `Run`, and the pins that are not data lines keep their level |
| Testbench.TestProject.Run | test/test.py:47-133 | the outcome is the `Verdict` for the first falling edge with chip select low; after a passing command phase the run ends at the edge `StreamFrom` gives, the tracker has seen every colour sampled from the command phase to that edge, and `clock_data` was called once for the command phase and once per nibble sent; the pins that are not data lines keep their level |

## Left out

- The clock, the reset sequence and its two cycles (test/test.py:30-43). The model starts at the edge
  reset is released, with both input ports low. The chip-select loop's first read of uio_out[2]
  happens at that edge, before any falling edge is awaited; the model reads `fall(0)` there.
- The design itself. Its outputs are given traces, `fall` and `rise`. The model does not feed
  the driven inputs back into the design, so it says nothing about how the design reacts to
  the nibbles.
- X and Z levels. Every sampled pin is 0 or 1.
- The content of `qspi_sim.clock_data` (scripts/qspi_sim.py is not part of this model). It is the
  input `source`, one value per call. Only the number and order of the calls are modelled.
- Reading `resources/data.bin` and writing `resources/output.bin` (test/test.py:79-82, 107). Only
  the length of the data is used. The bytes written to the output file are the field `frame`.
- The final drain: the last falling edge, setting the lines to 0, and the 5600 + 100 clock
  cycles of waiting (test/test.py:136-142). They check nothing.
- Logging and the text of failure messages. A failure is a `Fault` value holding the values
  the message reports.
- Testbench.TestProject.AwaitSelect: requires chip select to go low at some later edge. The
  source loops forever if it never does.
- Testbench.TestProject.StreamData: does not state which nibble is still on the data lines
  when the stream completes. `SendNibble` states it for each nibble.
- The integer values of ui_in and uio_in are not formed. Each port is kept as its eight pin
  levels, because `set_4bit_io` writes single pins.
