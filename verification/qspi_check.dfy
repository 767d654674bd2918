/**
 * The command-phase check: the design must shift out the Quad Output Fast
 * Read opcode 0x6B most significant bit first on uio_out[3], then hold
 * uio_oe[6] and uio_out[6] high for 32 dummy cycles, then drop uio_oe[6]
 * one falling edge later. The first violation ends the run.
 */
module QspiCheck {
  import opened Bits
  import opened Wrappers
  import opened Faults
  import opened Dut

  const Opcode: bv8 := 0x6B
  const OpcodeBits := 8
  const DummyCycles := 32
  /** Falling edges from the first opcode bit to the release sample. */
  const CommandEdges := OpcodeBits + DummyCycles

  /** The opcode's bits, most significant first, as the levels expected on the command line. */
  const OpcodeLevels: seq<Bit> := [0, 1, 1, 0, 1, 0, 1, 1]

  /** The level expected on the command line at the `i`-th opcode edge. */
  function ExpectedBit(i: nat): Bit
    requires i < OpcodeBits
  {
    OpcodeLevels[i]
  }

  /** The expected levels are the bits of 0x6B from bit 7 down to bit 0. */
  lemma ExpectedBitOfOpcode(i: nat)
    requires i < OpcodeBits
    ensures ExpectedBit(i) == BitOf(Opcode, 7 - i)
  {
    if i == 0 {} else if i == 1 {} else if i == 2 {} else if i == 3 {}
    else if i == 4 {} else if i == 5 {} else if i == 6 {} else {}
  }

  /** The testbench's test of bit 7 - i, `instruction & (1 << (7 - i))`, is set exactly when level 1 is expected. */
  lemma OpcodeMaskBit(i: nat)
    requires i < OpcodeBits
    ensures Opcode & (1 << (7 - i)) != 0 <==> ExpectedBit(i) == 1
  {
    MaskSelectsBit(Opcode, 7 - i);
    ExpectedBitOfOpcode(i);
  }

  /** What the testbench samples during the command phase. */
  datatype CommandWindow = CommandWindow(
    opcode: seq<Bit>,   // uio_out[3] at the 8 opcode edges
    enable: seq<Bit>,   // uio_oe[6] at the 32 dummy edges
    hold: seq<Bit>,     // uio_out[6] at the 32 dummy edges
    release: Bit)       // uio_oe[6] one falling edge after the dummy window

  predicate WellFormed(w: CommandWindow)
  {
    |w.opcode| == OpcodeBits && |w.enable| == DummyCycles && |w.hold| == DummyCycles
  }

  /** The window sampled from falling edge `e` on, the edge where chip select was seen low. */
  function WindowAt(fall: Trace, e: nat): (w: CommandWindow)
    ensures WellFormed(w)
  {
    CommandWindow(
      seq<Bit>(OpcodeBits, i requires 0 <= i => CommandLine(fall, e + i)),
      seq<Bit>(DummyCycles, i requires 0 <= i => HoldEnable(fall, e + OpcodeBits + i)),
      seq<Bit>(DummyCycles, i requires 0 <= i => HoldLine(fall, e + OpcodeBits + i)),
      HoldEnable(fall, e + CommandEdges))
  }

  /** The `i`-th opcode entry of the window is the command line at edge `e + i`. */
  lemma OpcodeSample(fall: Trace, e: nat, i: nat)
    requires i < OpcodeBits
    ensures WindowAt(fall, e).opcode[i] == CommandLine(fall, e + i)
  {
  }

  /** The `i`-th dummy entries of the window are the hold enable and line at edge `e + 8 + i`. */
  lemma DummySample(fall: Trace, e: nat, i: nat)
    requires i < DummyCycles
    ensures WindowAt(fall, e).enable[i] == HoldEnable(fall, e + OpcodeBits + i)
    ensures WindowAt(fall, e).hold[i] == HoldLine(fall, e + OpcodeBits + i)
  {
  }

  /**
   * The first opcode mismatch among the last `|obs|` bits, if any: `obs[0]`
   * is bit `8 - |obs|` of the window, the index the testbench's loop reports.
   */
  function ScanOpcode(obs: seq<Bit>): (r: Option<Fault>)
    requires |obs| <= OpcodeBits
    ensures r.Some? ==> r.value.OpcodeMismatch? && OpcodeBits - |obs| <= r.value.index < OpcodeBits
    decreases |obs|
  {
    if obs == [] then None
    else
      var i := OpcodeBits - |obs|;
      if obs[0] != ExpectedBit(i) then Some(OpcodeMismatch(i, ExpectedBit(i), obs[0]))
      else ScanOpcode(obs[1..])
  }

  /**
   * The first dummy-cycle violation among the last `|enable|` cycles; the
   * enable is checked before the hold line.
   */
  function ScanDummy(enable: seq<Bit>, hold: seq<Bit>): (r: Option<Fault>)
    requires |enable| == |hold| <= DummyCycles
    ensures r.Some? ==>
      (r.value.HoldNotEnabled? || r.value.HoldNotHigh?) && DummyCycles - |enable| <= r.value.index < DummyCycles
    decreases |enable|
  {
    if enable == [] then None
    else
      var i := DummyCycles - |enable|;
      if enable[0] != 1 then Some(HoldNotEnabled(i, enable[0]))
      else if hold[0] != 1 then Some(HoldNotHigh(i, hold[0]))
      else ScanDummy(enable[1..], hold[1..])
  }

  /**
   * The verdict of the command phase: `None` for pass, else the first
   * fault. It is always a command-phase fault, at a bit or cycle inside
   * the window; a missing release reports the hold enable still high.
   */
  function CheckCommand(w: CommandWindow): (r: Option<Fault>)
    requires WellFormed(w)
    ensures r.Some? ==> !r.value.SclkTimeout?
    ensures r.Some? && r.value.OpcodeMismatch? ==> r.value.index < OpcodeBits
    ensures r.Some? && (r.value.HoldNotEnabled? || r.value.HoldNotHigh?) ==> r.value.index < DummyCycles
    ensures r.Some? && r.value.HoldNotReleased? ==> r.value.observed == w.release == 1
  {
    var op := ScanOpcode(w.opcode);
    if op.Some? then op
    else
      var dummy := ScanDummy(w.enable, w.hold);
      if dummy.Some? then dummy
      else if w.release != 0 then Some(HoldNotReleased(w.release))
      else None
  }

  /** Every opcode bit from `i` on matches. */
  predicate OpcodeMatchesFrom(obs: seq<Bit>, i: nat)
    requires |obs| == OpcodeBits
  {
    forall j :: i <= j < OpcodeBits ==> obs[j] == ExpectedBit(j)
  }

  /** Every dummy cycle from `i` on has the hold line enabled and high. */
  predicate HoldHighFrom(enable: seq<Bit>, hold: seq<Bit>, i: nat)
    requires |enable| == DummyCycles && |hold| == DummyCycles
  {
    forall j :: i <= j < DummyCycles ==> enable[j] == 1 && hold[j] == 1
  }

  /** Scanning from bit 0, or cycle 0, is scanning the whole sequence. */
  lemma ScanFromStart(obs: seq<Bit>, enable: seq<Bit>, hold: seq<Bit>)
    requires |obs| == OpcodeBits && |enable| == DummyCycles && |hold| == DummyCycles
    ensures ScanOpcode(obs[0..]) == ScanOpcode(obs)
    ensures ScanDummy(enable[0..], hold[0..]) == ScanDummy(enable, hold)
  {
    assert obs[0..] == obs && enable[0..] == enable && hold[0..] == hold;
  }

  /** One step of the opcode scan at bit `i`. */
  lemma ScanOpcodeNext(obs: seq<Bit>, i: nat)
    requires |obs| == OpcodeBits && i < OpcodeBits
    ensures ScanOpcode(obs[i..]) ==
      if obs[i] != ExpectedBit(i) then Some(OpcodeMismatch(i, ExpectedBit(i), obs[i]))
      else ScanOpcode(obs[i + 1..])
  {
    assert obs[i..][1..] == obs[i + 1..];
  }

  /** One step of the dummy scan at cycle `i`. */
  lemma ScanDummyNext(enable: seq<Bit>, hold: seq<Bit>, i: nat)
    requires |enable| == DummyCycles && |hold| == DummyCycles && i < DummyCycles
    ensures ScanDummy(enable[i..], hold[i..]) ==
      if enable[i] != 1 then Some(HoldNotEnabled(i, enable[i]))
      else if hold[i] != 1 then Some(HoldNotHigh(i, hold[i]))
      else ScanDummy(enable[i + 1..], hold[i + 1..])
  {
    assert enable[i..][1..] == enable[i + 1..] && hold[i..][1..] == hold[i + 1..];
  }

  /** The opcode scan from bit `i` passes exactly when every remaining bit matches. */
  lemma {:induction false} ScanOpcodePasses(obs: seq<Bit>, i: nat)
    requires |obs| == OpcodeBits && i <= OpcodeBits
    ensures ScanOpcode(obs[i..]).None? <==> OpcodeMatchesFrom(obs, i)
    decreases OpcodeBits - i
  {
    if i < OpcodeBits && obs[i] == ExpectedBit(i) {
      assert obs[i..][1..] == obs[i + 1..];
      ScanOpcodePasses(obs, i + 1);
    }
  }

  /** A failing opcode scan from bit `i` names the first mismatching bit with its expected and observed levels. */
  lemma {:induction false} ScanOpcodeFirst(obs: seq<Bit>, i: nat)
    requires |obs| == OpcodeBits && i <= OpcodeBits && ScanOpcode(obs[i..]).Some?
    ensures var f := ScanOpcode(obs[i..]).value;
      f.OpcodeMismatch? && i <= f.index < OpcodeBits &&
      f.expected == ExpectedBit(f.index) && f.observed == obs[f.index] && f.observed != f.expected &&
      forall j :: i <= j < f.index ==> obs[j] == ExpectedBit(j)
    decreases OpcodeBits - i
  {
    if obs[i] == ExpectedBit(i) {
      assert obs[i..][1..] == obs[i + 1..];
      ScanOpcodeFirst(obs, i + 1);
    }
  }

  /** Matching every expected bit is observing exactly 0,1,1,0,1,0,1,1. */
  lemma OpcodeMatchesExactly(obs: seq<Bit>)
    requires |obs| == OpcodeBits
    ensures OpcodeMatchesFrom(obs, 0) <==> obs == [0, 1, 1, 0, 1, 0, 1, 1]
  {
    if OpcodeMatchesFrom(obs, 0) {
      assert obs == OpcodeLevels;
    }
  }

  /** The dummy scan from cycle `i` passes exactly when every remaining cycle has the hold line enabled and high. */
  lemma {:induction false} ScanDummyPasses(enable: seq<Bit>, hold: seq<Bit>, i: nat)
    requires |enable| == DummyCycles && |hold| == DummyCycles && i <= DummyCycles
    ensures ScanDummy(enable[i..], hold[i..]).None? <==> HoldHighFrom(enable, hold, i)
    decreases DummyCycles - i
  {
    if i < DummyCycles && enable[i] == 1 && hold[i] == 1 {
      assert enable[i..][1..] == enable[i + 1..] && hold[i..][1..] == hold[i + 1..];
      ScanDummyPasses(enable, hold, i + 1);
    }
  }

  /** A failing dummy scan from cycle `i` names the first cycle whose enable, or else hold line, read 0. */
  lemma {:induction false} ScanDummyFirst(enable: seq<Bit>, hold: seq<Bit>, i: nat)
    requires |enable| == DummyCycles && |hold| == DummyCycles && i <= DummyCycles
    requires ScanDummy(enable[i..], hold[i..]).Some?
    ensures var f := ScanDummy(enable[i..], hold[i..]).value;
      (f.HoldNotEnabled? || f.HoldNotHigh?) && i <= f.index < DummyCycles &&
      (forall j :: i <= j < f.index ==> enable[j] == 1 && hold[j] == 1) &&
      (f.HoldNotEnabled? ==> f.observed == enable[f.index] == 0) &&
      (f.HoldNotHigh? ==> enable[f.index] == 1 && f.observed == hold[f.index] == 0)
    decreases DummyCycles - i
  {
    if enable[i] == 1 && hold[i] == 1 {
      assert enable[i..][1..] == enable[i + 1..] && hold[i..][1..] == hold[i + 1..];
      ScanDummyFirst(enable, hold, i + 1);
    }
  }

  /** The command phase passes if and only if the opcode is 0x6B, the hold line is held through all 32 dummy cycles and then released. */
  lemma CheckCommandPasses(w: CommandWindow)
    requires WellFormed(w)
    ensures CheckCommand(w).None? <==>
      w.opcode == [0, 1, 1, 0, 1, 0, 1, 1] && HoldHighFrom(w.enable, w.hold, 0) && w.release == 0
  {
    assert w.opcode[0..] == w.opcode && w.enable[0..] == w.enable && w.hold[0..] == w.hold;
    ScanOpcodePasses(w.opcode, 0);
    ScanDummyPasses(w.enable, w.hold, 0);
    OpcodeMatchesExactly(w.opcode);
  }

  /**
   * A failing command phase reports its first violation, and every check
   * made before it passed: an opcode mismatch names its bit with the
   * expected and observed levels; a dummy fault comes after a correct
   * opcode; a missing release comes after all 32 dummy cycles passed.
   */
  lemma CheckCommandFirstFault(w: CommandWindow)
    requires WellFormed(w) && CheckCommand(w).Some?
    ensures var f := CheckCommand(w).value;
      match f
      case OpcodeMismatch(i, e, o) =>
        i < OpcodeBits && e == ExpectedBit(i) && o == w.opcode[i] && o != e &&
        forall j :: 0 <= j < i ==> w.opcode[j] == ExpectedBit(j)
      case HoldNotEnabled(i, o) =>
        OpcodeMatchesFrom(w.opcode, 0) && i < DummyCycles && o == w.enable[i] == 0 &&
        forall j :: 0 <= j < i ==> w.enable[j] == 1 && w.hold[j] == 1
      case HoldNotHigh(i, o) =>
        OpcodeMatchesFrom(w.opcode, 0) && i < DummyCycles && w.enable[i] == 1 && o == w.hold[i] == 0 &&
        forall j :: 0 <= j < i ==> w.enable[j] == 1 && w.hold[j] == 1
      case HoldNotReleased(o) =>
        OpcodeMatchesFrom(w.opcode, 0) && HoldHighFrom(w.enable, w.hold, 0) && o == w.release == 1
      case SclkTimeout(_) => false
  {
    assert w.opcode[0..] == w.opcode && w.enable[0..] == w.enable && w.hold[0..] == w.hold;
    ScanOpcodePasses(w.opcode, 0);
    if ScanOpcode(w.opcode).Some? {
      ScanOpcodeFirst(w.opcode, 0);
    } else {
      ScanDummyPasses(w.enable, w.hold, 0);
      if ScanDummy(w.enable, w.hold).Some? {
        ScanDummyFirst(w.enable, w.hold, 0);
      }
    }
  }
}
