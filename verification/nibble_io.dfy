/**
 * `set_4bit_io`: bit k of a value is driven onto the simulated flash data
 * line IO_k. The four lines are spread over two input ports of the design:
 * IO_0 = uio_in[3], IO_1 = ui_in[2], IO_2 = ui_in[3], IO_3 = uio_in[6].
 */
module NibbleIo {
  import opened Bits

  /** The levels of the four data lines IO_0..IO_3. */
  datatype IoLines = IoLines(io0: Bit, io1: Bit, io2: Bit, io3: Bit)

  /** An 8-bit input port as its pin levels, pin k at index k. */
  type Port = s: seq<Bit> | |s| == 8 witness [0, 0, 0, 0, 0, 0, 0, 0]

  /** All eight pins low. */
  const Low: Port := [0, 0, 0, 0, 0, 0, 0, 0]

  /** The two input ports the testbench drives, ui_in and uio_in. */
  datatype Inputs = Inputs(uiIn: Port, uioIn: Port)

  /**
   * The levels `set_4bit_io(value)` drives: `(value >> k) & 1` for line k.
   * Python's `>>` floors and `& 1` keeps the low bit, which is what
   * division and remainder by a positive power of two do here, so any
   * integer `value`, negative ones included, is modelled. Driving 0 pulls
   * all four lines low; `SplitNibbleValue` gives the general meaning.
   */
  function SplitNibble(value: int): (io: IoLines)
    ensures value == 0 ==> io == IoLines(0, 0, 0, 0)
  {
    IoLines(value % 2, (value / 2) % 2, (value / 4) % 2, (value / 8) % 2)
  }

  /** The four lines carry `value mod 16`, IO_0 least significant. */
  lemma SplitNibbleValue(value: int)
    ensures Assemble(SplitNibble(value)) == value % 16
  {
    NibbleDigits(value);
  }

  /** The value whose binary digits the four lines carry, IO_0 least significant. */
  function Assemble(io: IoLines): (n: nat)
    ensures n < 16
  {
    io.io0 + 2 * io.io1 + 4 * io.io2 + 8 * io.io3
  }

  /** The binary digits of `value mod 16`, least significant first. */
  lemma NibbleDigits(value: int)
    ensures value % 2 + 2 * ((value / 2) % 2) + 4 * ((value / 4) % 2) + 8 * ((value / 8) % 2) == value % 16
  {
    HalveMod(value, 8);
    HalveMod(value / 2, 4);
    HalveMod(value / 4, 2);
    HalveTwice(value, 2);
    HalveTwice(value, 4);
  }

  /** Taking `value mod 2m` is taking its last binary digit and then `(value / 2) mod m`. */
  lemma HalveMod(a: int, m: int)
    requires m > 0
    ensures a % (2 * m) == a % 2 + 2 * ((a / 2) % m)
  {
    var h, r := a / 2, a % 2;
    var q, s := h / m, h % m;
    assert a == 2 * (m * q) + (2 * s + r);
    assert a == (2 * m) * q + (2 * s + r);
    DivModUnique(a, 2 * m, q, 2 * s + r);
  }

  /** Halving after dividing by `d` is dividing by `2d`. */
  lemma HalveTwice(a: int, d: int)
    requires d > 0
    ensures (a / d) / 2 == a / (2 * d)
  {
    var h, r := a / d, a % d;
    var q, s := h / 2, h % 2;
    assert a == d * (2 * q + s) + r;
    assert a == (2 * d) * q + (d * s + r);
    DivModUnique(a, 2 * d, q, d * s + r);
  }

  lemma DivModUnique(a: int, d: int, q: int, r: int)
    requires d > 0 && a == d * q + r && 0 <= r < d
    ensures a / d == q && a % d == r
  {
    var q', r' := a / d, a % d;
    assert d * q + r == d * q' + r';
    if q > q' {
      assert d * (q - q') == d * q - d * q';
      MulAtLeast(d, q - q');
    } else if q < q' {
      assert d * (q' - q) == d * q' - d * q;
      MulAtLeast(d, q' - q);
    }
  }

  lemma MulAtLeast(d: int, k: int)
    requires d > 0 && k >= 1
    ensures d * k >= d
  {
    assert d * k == d + d * (k - 1);
  }

  /** Splitting a line assignment back out recovers it: no two nibbles share lines. */
  lemma SplitAssemble(io: IoLines)
    ensures SplitNibble(Assemble(io)) == io
  {
  }

  /** The data-line levels the design sees on its input ports. */
  function LinesOf(p: Inputs): IoLines
  {
    IoLines(p.uioIn[3], p.uiIn[2], p.uiIn[3], p.uioIn[6])
  }

  /** Whether pin `k` of ui_in, or of uio_in, carries a data line. */
  predicate UiDataPin(k: int) { k == 2 || k == 3 }
  predicate UioDataPin(k: int) { k == 3 || k == 6 }

  /** Every pin of `b` that carries no data line has its level in `a`. */
  predicate OtherPinsKept(a: Inputs, b: Inputs)
  {
    (forall k :: 0 <= k < 8 && !UiDataPin(k) ==> b.uiIn[k] == a.uiIn[k]) &&
    (forall k :: 0 <= k < 8 && !UioDataPin(k) ==> b.uioIn[k] == a.uioIn[k])
  }

  /**
   * `set_4bit_io(dut, value)`: the four pin writes, in the testbench's order.
   * The design then reads `value mod 16` off its data lines.
   */
  function SetNibble(p: Inputs, value: int): (q: Inputs)
    ensures LinesOf(q) == SplitNibble(value)
  {
    var io := SplitNibble(value);
    var uio := p.uioIn[3 := io.io0];
    var ui := p.uiIn[2 := io.io1];
    var ui := ui[3 := io.io2];
    var uio := uio[6 := io.io3];
    Inputs(ui, uio)
  }

  /** After `set_4bit_io(dut, value)` the design reads `value mod 16` off its data lines. */
  lemma SetNibbleValue(p: Inputs, value: int)
    ensures Assemble(LinesOf(SetNibble(p, value))) == value % 16
  {
    SplitNibbleValue(value);
  }

  /** Every pin that carries no data line keeps its level. */
  lemma SetNibbleKeepsOtherPins(p: Inputs, value: int)
    ensures OtherPinsKept(p, SetNibble(p, value))
  {
  }

  /** Keeping the other pins over two stretches keeps them over both. */
  lemma OtherPinsKeptTrans(a: Inputs, b: Inputs, c: Inputs)
    requires OtherPinsKept(a, b) && OtherPinsKept(b, c)
    ensures OtherPinsKept(a, c)
  {
  }

  /** A later `set_4bit_io` overrides an earlier one completely. */
  lemma SetNibbleOverwrites(p: Inputs, v: int, w: int)
    ensures SetNibble(SetNibble(p, v), w) == SetNibble(p, w)
  {
    InputsDetermined(SetNibble(SetNibble(p, v), w), SetNibble(p, w));
  }

  /** Two port states that agree on the data lines and on every other pin are the same. */
  lemma InputsDetermined(a: Inputs, b: Inputs)
    requires LinesOf(a) == LinesOf(b)
    requires forall k :: 0 <= k < 8 && !UiDataPin(k) ==> a.uiIn[k] == b.uiIn[k]
    requires forall k :: 0 <= k < 8 && !UioDataPin(k) ==> a.uioIn[k] == b.uioIn[k]
    ensures a == b
  {
    assert a.uiIn == b.uiIn;
    assert a.uioIn == b.uioIn;
  }
}
