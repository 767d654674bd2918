/**
 * The data stream: for each nibble the testbench waits, one clock cycle at
 * a time, for the design to raise the flash serial clock, and gives up
 * after 50000 cycles without it.
 */
module SclkWait {
  import opened Dut

  const Timeout := 50000

  /** How one wait ends: a pulse seen after `cycles` cycles, or the timeout. */
  datatype Wait = Pulse(cycles: nat) | TimedOut

  /**
   * The wait that started at falling edge `start`, now at cycle `n`, every
   * earlier cycle having read SCLK low. The cycle at `n` reads SCLK at the
   * rising edge that follows falling edge `n`, and ends on falling edge
   * `n + 1`; the loop counter `timeout_cnt` is `n - start`. A pulse ends
   * the wait after cycle `n` and within its budget of 50000 cycles.
   */
  function ScanSclk(rise: Trace, start: nat, n: nat): (w: Wait)
    requires start <= n < start + Timeout
    ensures w.Pulse? ==> n - start < w.cycles <= Timeout
    decreases start + Timeout - n
  {
    if SclkHigh(rise, n) then Pulse(n + 1 - start)
    else if n + 1 - start >= Timeout then TimedOut
    else ScanSclk(rise, start, n + 1)
  }

  /**
   * A wait times out exactly when SCLK stays low for all its 50000 cycles;
   * otherwise it ends on the cycle of the first pulse, within the budget.
   */
  lemma {:induction false} ScanSclkMeaning(rise: Trace, start: nat, n: nat)
    requires start <= n < start + Timeout
    ensures ScanSclk(rise, start, n).TimedOut? <==>
      forall m :: n <= m < start + Timeout ==> !SclkHigh(rise, m)
    ensures ScanSclk(rise, start, n).Pulse? ==>
      var c := ScanSclk(rise, start, n).cycles;
      n - start < c <= Timeout && SclkHigh(rise, start + c - 1) &&
      forall m :: n <= m < start + c - 1 ==> !SclkHigh(rise, m)
    decreases start + Timeout - n
  {
    if !SclkHigh(rise, n) && n + 1 - start < Timeout {
      ScanSclkMeaning(rise, start, n + 1);
    }
  }

  /** The wait for one nibble, started afresh at falling edge `e`. */
  function WaitFrom(rise: Trace, e: nat): (w: Wait)
    ensures w.Pulse? ==> 1 <= w.cycles <= Timeout
  {
    ScanSclk(rise, e, e)
  }

  /** A wait whose first high SCLK is at edge `n` ends there, after `n + 1 - start` cycles. */
  lemma WaitFromPulse(rise: Trace, start: nat, n: nat)
    requires start <= n < start + Timeout && SclkHigh(rise, n)
    requires forall m :: start <= m < n ==> !SclkHigh(rise, m)
    ensures WaitFrom(rise, start) == Pulse(n + 1 - start)
  {
    ScanSclkMeaning(rise, start, start);
  }

  /** A wait that sees SCLK low on all its 50000 cycles times out. */
  lemma WaitFromTimeout(rise: Trace, start: nat)
    requires forall m :: start <= m < start + Timeout ==> !SclkHigh(rise, m)
    ensures WaitFrom(rise, start) == TimedOut
  {
    ScanSclkMeaning(rise, start, start);
  }

  /** How the stream of `total` nibbles ends: all sent at some edge, or stalled on one nibble. */
  datatype StreamEnd = Streamed(edge: nat) | Stalled(nibble: nat, edge: nat)

  /**
   * The stream from nibble `k` on, starting at falling edge `e`; each
   * nibble's wait starts afresh. It never ends before `e`, and a stall is
   * on a nibble from `k` on that is still to be sent, at least one full
   * wait after `e`.
   */
  function StreamFrom(rise: Trace, e: nat, k: nat, total: nat): (r: StreamEnd)
    ensures r.edge >= e
    ensures r.Stalled? ==> k <= r.nibble < total && r.edge >= e + Timeout
    decreases total - k
  {
    if k >= total then Streamed(e)
    else match WaitFrom(rise, e)
      case TimedOut => Stalled(k, e + Timeout)
      case Pulse(c) => StreamFrom(rise, e + c, k + 1, total)
  }

  /** The longest `n` waits can take: 50000 cycles each. */
  function Budget(n: nat): nat
  {
    if n == 0 then 0 else Budget(n - 1) + Timeout
  }

  lemma {:induction false} BudgetIsProduct(n: nat)
    ensures Budget(n) == n * Timeout
  {
    if n > 0 {
      BudgetIsProduct(n - 1);
    }
  }

  lemma BudgetStep(n: nat)
    requires n > 0
    ensures Budget(n) == Budget(n - 1) + Timeout
  {
  }

  /** A nibble still to send: the stream stalls if its wait times out, else goes on from the edge the wait ended on. */
  lemma StreamStep(rise: Trace, e: nat, k: nat, total: nat)
    requires k < total
    ensures StreamFrom(rise, e, k, total) ==
      if WaitFrom(rise, e).TimedOut? then Stalled(k, e + Timeout)
      else StreamFrom(rise, e + WaitFrom(rise, e).cycles, k + 1, total)
  {
  }

  /** Sending every nibble from `k` on takes between one and 50000 cycles per nibble. */
  lemma {:induction false} StreamedBounds(rise: Trace, e: nat, k: nat, total: nat)
    requires k <= total && StreamFrom(rise, e, k, total).Streamed?
    ensures var e' := StreamFrom(rise, e, k, total).edge;
      e + (total - k) <= e' <= e + Budget(total - k)
    decreases total - k
  {
    var w := WaitFrom(rise, e);
    if k < total {
      StreamStep(rise, e, k, total);
      assert w.Pulse?;
      StreamedBounds(rise, e + w.cycles, k + 1, total);
      BudgetStep(total - k);
    }
  }

  /** A stall is on a nibble not yet sent, each nibble before it having taken between one and 50000 cycles. */
  lemma {:induction false} StalledBounds(rise: Trace, e: nat, k: nat, total: nat)
    requires k <= total && StreamFrom(rise, e, k, total).Stalled?
    ensures var r := StreamFrom(rise, e, k, total);
      k <= r.nibble < total &&
      e + (r.nibble - k) + Timeout <= r.edge <= e + Budget(r.nibble - k + 1)
    decreases total - k
  {
    var w := WaitFrom(rise, e);
    if w.Pulse? {
      StalledBounds(rise, e + w.cycles, k + 1, total);
    }
  }

  /** The stalled nibble's own wait started 50000 cycles before the stall and timed out. */
  lemma {:induction false} StalledWaitTimedOut(rise: Trace, e: nat, k: nat, total: nat)
    requires k <= total && StreamFrom(rise, e, k, total).Stalled?
    ensures var r := StreamFrom(rise, e, k, total);
      r.edge >= e + Timeout && WaitFrom(rise, r.edge - Timeout).TimedOut?
    decreases total - k
  {
    StreamStep(rise, e, k, total);
    var w := WaitFrom(rise, e);
    if w.Pulse? {
      StalledWaitTimedOut(rise, e + w.cycles, k + 1, total);
    }
  }

  /** A stall is a timeout: during the stalled nibble's wait, SCLK was low on all 50000 cycles. */
  lemma StallMeansSilence(rise: Trace, e: nat, total: nat)
    requires StreamFrom(rise, e, 0, total).Stalled?
    ensures var e' := StreamFrom(rise, e, 0, total).edge;
      e' >= Timeout && forall n :: e' - Timeout <= n < e' ==> !SclkHigh(rise, n)
  {
    StalledWaitTimedOut(rise, e, 0, total);
    var e' := StreamFrom(rise, e, 0, total).edge;
    ScanSclkMeaning(rise, e' - Timeout, e' - Timeout);
  }
}
