/**
 * The design under test, seen only through the output pins the testbench
 * samples. Its behaviour is an input to the model: one sample of its pins
 * per clock edge.
 */
module Dut {
  import opened Bits

  /** The design's outputs at one instant: uio_out, uio_oe and uo_out. */
  datatype Pins = Pins(uioOut: bv8, uioOe: bv8, uoOut: bv8)

  /**
   * A recorded run of the design: `t(n)` is what the testbench reads at
   * the n-th edge of one kind (falling, or rising) after reset.
   */
  type Trace = nat -> Pins

  /** uio_out[2], the flash chip select, is low. */
  predicate CsLow(t: Trace, n: nat)
  {
    BitOf(t(n).uioOut, 2) == 0
  }

  /** uio_out[4], the flash serial clock, is high. */
  predicate SclkHigh(t: Trace, n: nat)
  {
    BitOf(t(n).uioOut, 4) == 1
  }

  /** uio_out[3], the line the command opcode is shifted out on. */
  function CommandLine(t: Trace, n: nat): Bit
  {
    BitOf(t(n).uioOut, 3)
  }

  /** uio_oe[6], the output enable of the hold line. */
  function HoldEnable(t: Trace, n: nat): Bit
  {
    BitOf(t(n).uioOe, 6)
  }

  /** uio_out[6], the hold line. */
  function HoldLine(t: Trace, n: nat): Bit
  {
    BitOf(t(n).uioOut, 6)
  }
}

/** The ways the testbench fails a run, with the values its messages report. */
module Faults {
  import opened Bits

  datatype Fault =
    | OpcodeMismatch(index: nat, expected: Bit, observed: Bit)   // "Expected bit i to be e, got o"
    | HoldNotEnabled(index: nat, observed: Bit)                   // output enable low in dummy cycle i
    | HoldNotHigh(index: nat, observed: Bit)                      // hold pin low in dummy cycle i
    | HoldNotReleased(observed: Bit)                              // output enable still high after the dummy window
    | SclkTimeout(nibble: nat)                                    // no SCLK pulse for the given nibble
}
