/**
 * The test itself: wait for the design to select the flash, check the
 * command it sends, then feed it nibbles on demand while sampling its
 * colour output once per clock and keeping the visible pixels.
 */
module Testbench {
  import opened Bits
  import opened Wrappers
  import opened Dut
  import opened Faults
  import opened NibbleIo
  import opened QspiCheck
  import opened Colour
  import opened Raster
  import opened SclkWait

  /** The colour outputs read on falling edges `a + 1` through `b`. */
  function Observed(fall: Trace, a: nat, b: nat): (cs: seq<bv8>)
    requires a <= b
    ensures |cs| == b - a
  {
    seq(b - a, i requires 0 <= i < b - a => fall(a + 1 + i).uoOut)
  }

  /** The tracker after reading through edge `b + 1` is one more `Step` past the tracker through edge `b`. */
  lemma StepsObservedSnoc(s: Capture, fall: Trace, a: nat, b: nat)
    requires a <= b
    ensures Steps(s, Observed(fall, a, b + 1)) == Step(Steps(s, Observed(fall, a, b)), fall(b + 1).uoOut)
  {
    assert Observed(fall, a, b + 1) == Observed(fall, a, b) + [fall(b + 1).uoOut];
    StepsSnoc(s, Observed(fall, a, b), fall(b + 1).uoOut);
  }

  /** Reading on from edge `b` to edge `c` continues the reading from `a` to `b`. */
  lemma ObservedAppend(fall: Trace, a: nat, b: nat, c: nat)
    requires a <= b <= c
    ensures Observed(fall, a, c) == Observed(fall, a, b) + Observed(fall, b, c)
  {
  }

  /**
   * The outcome of a whole run that found chip select low at falling edge
   * `selected`: the command check's first fault, else the nibble whose wait
   * timed out, else a pass. A timeout names a nibble still to be sent.
   */
  function Verdict(fall: Trace, rise: Trace, selected: nat, total: nat): (r: Option<Fault>)
    ensures r.Some? && r.value.SclkTimeout? ==> r.value.nibble < total
  {
    var command := CheckCommand(WindowAt(fall, selected));
    if command.Some? then command
    else match StreamFrom(rise, selected + CommandEdges, 0, total)
      case Streamed(_) => None
      case Stalled(k, _) => Some(SclkTimeout(k))
  }

  /**
   * A run passes exactly when the opcode reads 0,1,1,0,1,0,1,1, the hold
   * line is enabled and high through the 32 dummy cycles and released
   * after them, and every nibble's wait sees the serial clock.
   */
  lemma VerdictPasses(fall: Trace, rise: Trace, selected: nat, total: nat)
    ensures var w := WindowAt(fall, selected);
      Verdict(fall, rise, selected, total).None? <==>
        w.opcode == [0, 1, 1, 0, 1, 0, 1, 1] && HoldHighFrom(w.enable, w.hold, 0) && w.release == 0 &&
        StreamFrom(rise, selected + CommandEdges, 0, total).Streamed?
  {
    CheckCommandPasses(WindowAt(fall, selected));
  }

  /**
   * A run that fails on a timeout failed on a nibble it had not yet sent,
   * after SCLK stayed low for 50000 cycles.
   */
  lemma VerdictTimeout(fall: Trace, rise: Trace, selected: nat, total: nat)
    requires Verdict(fall, rise, selected, total).Some?
    requires Verdict(fall, rise, selected, total).value.SclkTimeout?
    ensures Verdict(fall, rise, selected, total).value.nibble < total
    ensures var e := StreamFrom(rise, selected + CommandEdges, 0, total).edge;
      e >= Timeout && forall n :: e - Timeout <= n < e ==> !SclkHigh(rise, n)
  {
    StalledBounds(rise, selected + CommandEdges, 0, total);
    StallMeansSilence(rise, selected + CommandEdges, total);
  }

  /** The testbench's test `instruction & (1 << (7 - i))` on the opcode: set exactly when level 1 is expected at bit `i`. */
  method InstructionBit(instruction: bv8, i: nat) returns (bitSet: bool)
    requires instruction == Opcode && i < OpcodeBits
    ensures bitSet <==> ExpectedBit(i) == 1
  {
    bitSet := instruction & (1 << (7 - i)) != 0;
    OpcodeMaskBit(i);
  }

  /**
   * The testbench of `test_project`. `fall(n)` and `rise(n)` are the
   * design's outputs at the n-th falling edge after reset and at the rising
   * edge that follows it; `source(n)` is the value the n-th call of the
   * flash simulator's `clock_data` returns. `edge` is the falling edge the
   * test is at, `calls` the number of `clock_data` calls made, `inputs` the
   * levels it drives on ui_in and uio_in.
   */
  class TestProject {
    const fall: Trace
    const rise: Trace
    const source: nat -> int
    var edge: nat
    var calls: nat
    var inputs: Inputs
    var leadingBlankCount: nat
    var column: int
    var row: int
    var frame: seq<bv8>
    var timeoutCnt: nat

    /** The reset drives ui_in and uio_in to zero; the test starts on the edge reset is released. */
    constructor(fall: Trace, rise: Trace, source: nat -> int)
      ensures this.fall == fall && this.rise == rise && this.source == source
      ensures edge == 0 && calls == 0 && inputs == Inputs(Low, Low)
      ensures Capture(leadingBlankCount, column, row, frame) == Start && timeoutCnt == 0
    {
      this.fall := fall;
      this.rise := rise;
      this.source := source;
      edge := 0;
      calls := 0;
      inputs := Inputs(Low, Low);
      leadingBlankCount := 0;
      column := 1;
      row := 1;
      frame := [];
      timeoutCnt := 0;
    }

    /** Wait, a falling edge at a time, for chip select to go low. */
    method AwaitSelect()
      requires exists n: nat :: n >= edge && CsLow(fall, n)
      modifies `edge
      ensures old(edge) <= edge && CsLow(fall, edge)
      ensures forall n :: old(edge) <= n < edge ==> !CsLow(fall, n)
    {
      ghost var w: nat :| w >= edge && CsLow(fall, w);
      while !CsLow(fall, edge)
        invariant old(edge) <= edge <= w
        invariant forall n :: old(edge) <= n < edge ==> !CsLow(fall, n)
        decreases w - edge
      {
        edge := edge + 1;
      }
    }

    /**
     * The eight opcode bits, one a falling edge: each is compared with bit
     * 7 - i of 0x6B, and the first mismatch fails the run.
     */
    method CheckOpcode() returns (fault: Option<Fault>)
      modifies `edge
      ensures fault == ScanOpcode(WindowAt(fall, old(edge)).opcode)
      ensures fault.None? ==> edge == old(edge) + OpcodeBits
    {
      ghost var e0 := edge;
      ghost var w := WindowAt(fall, e0);
      ScanFromStart(w.opcode, w.enable, w.hold);
      var instruction: bv8 := Opcode;
      var i := 0;
      while i < OpcodeBits
        invariant 0 <= i <= OpcodeBits && edge == e0 + i
        invariant ScanOpcode(w.opcode) == ScanOpcode(w.opcode[i..])
      {
        var bitSet := InstructionBit(instruction, i);
        var dataOutput := CommandLine(fall, edge);
        OpcodeSample(fall, e0, i);
        ScanOpcodeNext(w.opcode, i);
        if bitSet {
          if dataOutput != 1 {
            return Some(OpcodeMismatch(i, 1, dataOutput));
          }
        } else {
          if dataOutput != 0 {
            return Some(OpcodeMismatch(i, 0, dataOutput));
          }
        }
        edge := edge + 1;
        i := i + 1;
      }
      return None;
    }

    /**
     * The 32 dummy cycles of the command window that starts at falling
     * edge `start`: on each the hold line must be enabled, then high. No
     * edge is awaited after the last one.
     */
    method CheckDummy(ghost start: nat) returns (fault: Option<Fault>)
      requires edge == start + OpcodeBits
      modifies `edge
      ensures fault == ScanDummy(WindowAt(fall, start).enable, WindowAt(fall, start).hold)
      ensures fault.None? ==> edge == start + CommandEdges - 1
    {
      ghost var w := WindowAt(fall, start);
      ScanFromStart(w.opcode, w.enable, w.hold);
      var i := 0;
      while i < DummyCycles
        invariant 0 <= i <= DummyCycles
        invariant edge == start + OpcodeBits + (if i < DummyCycles then i else DummyCycles - 1)
        invariant ScanDummy(w.enable, w.hold) == ScanDummy(w.enable[i..], w.hold[i..])
      {
        var outputEnable := HoldEnable(fall, edge);
        var dataOutput := HoldLine(fall, edge);
        DummySample(fall, start, i);
        ScanDummyNext(w.enable, w.hold, i);
        if outputEnable != 1 {
          return Some(HoldNotEnabled(i, outputEnable));
        }
        if dataOutput != 1 {
          return Some(HoldNotHigh(i, dataOutput));
        }
        if i < DummyCycles - 1 {
          edge := edge + 1;
        }
        i := i + 1;
      }
      return None;
    }

    /**
     * The command phase from the edge chip select was seen low: the opcode,
     * the dummy cycles, one more edge, the first nibble from the flash
     * simulator, and the release of the hold line. Its verdict is
     * `CheckCommand` of the window sampled from that edge; on a pass, and
     * on a hold line not released, it ends 40 edges later with one nibble
     * driven.
     */
    method CheckCommandPhase() returns (fault: Option<Fault>)
      modifies `edge, `inputs, `calls
      ensures fault == CheckCommand(WindowAt(fall, old(edge)))
      ensures fault.None? || fault.value.HoldNotReleased? ==>
        edge == old(edge) + CommandEdges && calls == old(calls) + 1 &&
        inputs == SetNibble(old(inputs), source(old(calls)))
      ensures fault.Some? && !fault.value.HoldNotReleased? ==> inputs == old(inputs) && calls == old(calls)
      ensures OtherPinsKept(old(inputs), inputs)
    {
      ghost var e0 := edge;
      fault := CheckOpcode();
      if fault.Some? {
        return;
      }
      fault := CheckDummy(e0);
      if fault.Some? {
        return;
      }
      edge := edge + 1;
      SetNibbleKeepsOtherPins(inputs, source(calls));
      inputs := SetNibble(inputs, source(calls));
      calls := calls + 1;
      var outputEnable := HoldEnable(fall, edge);
      if outputEnable != 0 {
        return Some(HoldNotReleased(outputEnable));
      }
      return None;
    }

    /** One falling-edge sample of the colour output through the raster tracker. */
    method SampleCycle(uo: bv8)
      modifies `leadingBlankCount, `column, `row, `frame
      ensures Capture(leadingBlankCount, column, row, frame) == Step(Capture(old(leadingBlankCount), old(column), old(row), old(frame)), uo)
    {
      if leadingBlankCount > LeadingBlankLimit {
        var colour := GetRgb(uo);
        if column <= ActiveColumns && row <= ActiveRows {
          frame := frame + [colour];
        }
        column := column + 1;
        if column == LineClocks + 1 {
          column := 1;
          row := row + 1;
        }
        if row == FrameLines + 1 {
          row := 1;
        }
      } else {
        leadingBlankCount := leadingBlankCount + 1;
      }
    }

    /**
     * One clock cycle of the wait: read SCLK on the rising edge, sample the
     * colour output on the falling edge that follows, then drive 0 on the
     * data lines.
     */
    method ClockCycle(ghost e0: nat, ghost s0: Capture) returns (sclkEnabled: bool)
      requires e0 <= edge && Capture(leadingBlankCount, column, row, frame) == Steps(s0, Observed(fall, e0, edge))
      modifies `edge, `inputs, `leadingBlankCount, `column, `row, `frame
      ensures sclkEnabled == SclkHigh(rise, old(edge)) && edge == old(edge) + 1
      ensures Capture(leadingBlankCount, column, row, frame) ==
        Step(Capture(old(leadingBlankCount), old(column), old(row), old(frame)), fall(edge).uoOut)
      ensures Capture(leadingBlankCount, column, row, frame) == Steps(s0, Observed(fall, e0, edge))
      ensures inputs == SetNibble(old(inputs), 0)
    {
      StepsObservedSnoc(s0, fall, e0, edge);
      sclkEnabled := SclkHigh(rise, edge);
      edge := edge + 1;
      SampleCycle(fall(edge).uoOut);
      inputs := SetNibble(inputs, 0);
    }

    /**
     * Wait for the serial clock before nibble `nibbleIndex`: each cycle
     * reads SCLK on the rising edge, samples the colour on the next falling
     * edge and drives the data lines to 0. It ends on the first cycle SCLK
     * reads high, or fails once 50000 cycles in a row have read it low;
     * `timeoutCnt` counts the cycles that read it low.
     */
    method WaitForSclk(nibbleIndex: nat) returns (fault: Option<Fault>)
      modifies `edge, `inputs, `timeoutCnt, `leadingBlankCount, `column, `row, `frame
      ensures old(edge) < edge <= old(edge) + Timeout
      ensures forall m :: old(edge) <= m < edge - 1 ==> !SclkHigh(rise, m)
      ensures fault.None? ==> SclkHigh(rise, edge - 1) && timeoutCnt == edge - old(edge) - 1
      ensures fault.Some? ==>
        fault == Some(SclkTimeout(nibbleIndex)) && !SclkHigh(rise, edge - 1) &&
        edge == old(edge) + Timeout && timeoutCnt == Timeout
      ensures Capture(leadingBlankCount, column, row, frame) == Steps(Capture(old(leadingBlankCount), old(column), old(row), old(frame)), Observed(fall, old(edge), edge))
      ensures inputs == SetNibble(old(inputs), 0)
    {
      ghost var e0 := edge;
      ghost var s0 := Capture(leadingBlankCount, column, row, frame);
      timeoutCnt := 0;
      while true
        invariant e0 <= edge < e0 + Timeout && timeoutCnt == edge - e0
        invariant forall m :: e0 <= m < edge ==> !SclkHigh(rise, m)
        invariant Capture(leadingBlankCount, column, row, frame) == Steps(s0, Observed(fall, e0, edge))
        invariant inputs == if edge == e0 then old(inputs) else SetNibble(old(inputs), 0)
        decreases e0 + Timeout - edge
      {
        SetNibbleOverwrites(old(inputs), 0, 0);
        var sclkEnabled := ClockCycle(e0, s0);
        if sclkEnabled {
          return None;
        }
        timeoutCnt := timeoutCnt + 1;
        if timeoutCnt >= Timeout {
          return Some(SclkTimeout(nibbleIndex));
        }
      }
    }

    /**
     * Nibble `nibbleIndex` of a stream of `total`: wait for the serial
     * clock, then drive the next value of the flash simulator onto the data
     * lines. It is one step of `StreamFrom`: a timeout stalls the stream
     * before the value is fetched.
     */
    method SendNibble(nibbleIndex: nat, ghost total: nat) returns (fault: Option<Fault>)
      requires nibbleIndex < total
      modifies `edge, `inputs, `calls, `timeoutCnt, `leadingBlankCount, `column, `row, `frame
      ensures old(edge) < edge
      ensures fault.Some? ==>
        fault == Some(SclkTimeout(nibbleIndex)) && calls == old(calls) &&
        inputs == SetNibble(old(inputs), 0) &&
        StreamFrom(rise, old(edge), nibbleIndex, total) == Stalled(nibbleIndex, edge)
      ensures fault.None? ==>
        WaitFrom(rise, old(edge)) == Pulse(edge - old(edge)) &&
        calls == old(calls) + 1 && inputs == SetNibble(old(inputs), source(calls - 1)) &&
        StreamFrom(rise, old(edge), nibbleIndex, total) == StreamFrom(rise, edge, nibbleIndex + 1, total)
      ensures Capture(leadingBlankCount, column, row, frame) ==
        Steps(Capture(old(leadingBlankCount), old(column), old(row), old(frame)), Observed(fall, old(edge), edge))
    {
      StreamStep(rise, edge, nibbleIndex, total);
      ghost var e1 := edge;
      fault := WaitForSclk(nibbleIndex);
      if fault.Some? {
        WaitFromTimeout(rise, e1);
        return;
      }
      WaitFromPulse(rise, e1, edge - 1);
      SetNibbleOverwrites(old(inputs), 0, source(calls));
      inputs := SetNibble(inputs, source(calls));
      calls := calls + 1;
    }

    /**
     * Stream `|data| * 2` nibbles from the flash simulator, each after its
     * own wait for the serial clock, with the raster tracker started afresh.
     * It ends as `StreamFrom` says: on a stall, with the failing nibble
     * reported and only the nibbles before it sent; otherwise with all of
     * them sent. The tracker has seen every colour output sampled along the
     * way.
     */
    method StreamData(data: seq<bv8>) returns (fault: Option<Fault>)
      modifies `edge, `inputs, `calls, `timeoutCnt, `leadingBlankCount, `column, `row, `frame
      ensures var r := StreamFrom(rise, old(edge), 0, |data| * 2);
        edge == r.edge &&
        (fault.None? <==> r.Streamed?) &&
        (r.Stalled? ==> fault == Some(SclkTimeout(r.nibble)) && calls == old(calls) + r.nibble) &&
        (r.Streamed? ==> calls == old(calls) + |data| * 2)
      ensures old(edge) <= edge && Capture(leadingBlankCount, column, row, frame) == Steps(Start, Observed(fall, old(edge), edge))
      ensures OtherPinsKept(old(inputs), inputs)
    {
      ghost var e0 := edge;
      var totalNibbles := |data| * 2;
      leadingBlankCount, column, row, frame := 0, 1, 1, [];
      var nibbleIndex := 0;
      while nibbleIndex < totalNibbles
        invariant 0 <= nibbleIndex <= totalNibbles && e0 <= edge
        invariant StreamFrom(rise, e0, 0, totalNibbles) == StreamFrom(rise, edge, nibbleIndex, totalNibbles)
        invariant calls == old(calls) + nibbleIndex
        invariant Capture(leadingBlankCount, column, row, frame) == Steps(Start, Observed(fall, e0, edge))
        invariant OtherPinsKept(old(inputs), inputs)
      {
        ghost var e1 := edge;
        ghost var in1 := inputs;
        fault := SendNibble(nibbleIndex, totalNibbles);
        SetNibbleKeepsOtherPins(in1, if fault.None? then source(calls - 1) else 0);
        OtherPinsKeptTrans(old(inputs), in1, inputs);
        ObservedAppend(fall, e0, e1, edge);
        StepsAppend(Start, Observed(fall, e0, e1), Observed(fall, e1, edge));
        if fault.Some? {
          return;
        }
        nibbleIndex := nibbleIndex + 1;
      }
      fault := None;
    }

    /**
     * Everything after chip select is seen low at the current edge: the
     * command phase, then, if it passed, the data stream. Its outcome is
     * the `Verdict` for that edge.
     */
    method CommandAndStream(data: seq<bv8>) returns (fault: Option<Fault>)
      modifies this
      ensures fault == Verdict(fall, rise, old(edge), |data| * 2)
      ensures CheckCommand(WindowAt(fall, old(edge))).None? ==>
        var r := StreamFrom(rise, old(edge) + CommandEdges, 0, |data| * 2);
        edge == r.edge && old(edge) + CommandEdges <= edge &&
        Capture(leadingBlankCount, column, row, frame) == Steps(Start, Observed(fall, old(edge) + CommandEdges, edge)) &&
        calls == old(calls) + 1 + (if r.Stalled? then r.nibble else |data| * 2)
      ensures OtherPinsKept(old(inputs), inputs)
    {
      fault := CheckCommandPhase();
      if fault.None? {
        ghost var in1 := inputs;
        fault := StreamData(data);
        OtherPinsKeptTrans(old(inputs), in1, inputs);
      }
    }

    /**
     * The whole test: select, command phase, then the data stream. Its
     * outcome is the `Verdict` for the edge at which chip select was first
     * seen low.
     */
    method Run(data: seq<bv8>) returns (fault: Option<Fault>, ghost selected: nat)
      requires exists n: nat :: n >= edge && CsLow(fall, n)
      modifies this
      ensures old(edge) <= selected && CsLow(fall, selected)
      ensures forall n :: old(edge) <= n < selected ==> !CsLow(fall, n)
      ensures fault == Verdict(fall, rise, selected, |data| * 2)
      ensures CheckCommand(WindowAt(fall, selected)).None? ==>
        var r := StreamFrom(rise, selected + CommandEdges, 0, |data| * 2);
        edge == r.edge && selected + CommandEdges <= edge &&
        Capture(leadingBlankCount, column, row, frame) == Steps(Start, Observed(fall, selected + CommandEdges, edge)) &&
        calls == old(calls) + 1 + (if r.Stalled? then r.nibble else |data| * 2)
      ensures OtherPinsKept(old(inputs), inputs)
    {
      AwaitSelect();
      selected := edge;
      fault := CommandAndStream(data);
    }
  }
}
