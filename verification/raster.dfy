/**
 * The raster tracker that decides which sampled colour bytes belong to the
 * visible picture. The design follows 640x480 VGA timing: 800 clocks per
 * line, 525 lines per frame, the first 640 columns of the first 480 rows
 * visible. After reset the pipeline of the design needs a fixed number of
 * cycles before its first pixel; those cycles are skipped.
 */
module Raster {
  import opened Colour

  const ActiveColumns := 640
  const ActiveRows := 480
  const LineClocks := 800
  const FrameLines := 525
  const FrameClocks := 420000  // LineClocks x FrameLines
  const ActivePixels := 307200  // ActiveColumns x ActiveRows
  /** Sampling starts once the leading-blank count exceeds this. */
  const LeadingBlankLimit := 35317
  /** The number of cycles skipped before the first sample. */
  const SkippedCycles := LeadingBlankLimit + 1

  /**
   * The tracker's state: the leading-blank count, the 1-based column
   * (`current_blank_width`) and row (`current_blank_height`), and the bytes
   * written to the output image so far.
   */
  datatype Capture = Capture(leadingBlank: nat, column: int, row: int, frame: seq<bv8>)

  /** The state before the first sampled cycle. */
  const Start := Capture(0, 1, 1, [])

  predicate Sampling(s: Capture)
  {
    s.leadingBlank > LeadingBlankLimit
  }

  predicate OnRaster(s: Capture)
  {
    1 <= s.column <= LineClocks && 1 <= s.row <= FrameLines
  }

  predicate Active(s: Capture)
  {
    s.column <= ActiveColumns && s.row <= ActiveRows
  }

  /** Clocks since the start of the frame, in scan order. */
  function Position(s: Capture): (p: nat)
    requires OnRaster(s)
    ensures p < FrameClocks
  {
    (s.row - 1) * LineClocks + (s.column - 1)
  }

  /** The 3-3-2 colours of a run of sampled output bytes. */
  function Colours(cs: seq<bv8>): (rgb: seq<bv8>)
    ensures |rgb| == |cs|
  {
    seq(|cs|, i requires 0 <= i < |cs| => GetRgb(cs[i]))
  }

  /**
   * One cycle of the tracker with the design's colour output `uo`: skip
   * while in the leading blank; otherwise write the colour when inside the
   * visible region, then advance the column, wrapping 801 to 1 into the
   * next row, and the row, wrapping 526 to 1. Once sampling, the position
   * is a scan counter modulo 800 x 525.
   */
  function Step(s: Capture, uo: bv8): (t: Capture)
    ensures OnRaster(s) ==> OnRaster(t)
    ensures s.frame <= t.frame && |t.frame| <= |s.frame| + 1
  {
    if s.leadingBlank > LeadingBlankLimit then
      var frame := if s.column <= ActiveColumns && s.row <= ActiveRows then s.frame + [GetRgb(uo)] else s.frame;
      var column := s.column + 1;
      var row := s.row;
      var column, row := if column == LineClocks + 1 then 1 else column, if column == LineClocks + 1 then row + 1 else row;
      var row := if row == FrameLines + 1 then 1 else row;
      Capture(s.leadingBlank, column, row, frame)
    else
      s.(leadingBlank := s.leadingBlank + 1)
  }

  /** Once sampling, a cycle advances the scan position by one, modulo 800 x 525. */
  lemma StepAdvances(s: Capture, uo: bv8)
    requires Sampling(s) && OnRaster(s)
    ensures var t := Step(s, uo);
      Sampling(t) && t.leadingBlank == s.leadingBlank && OnRaster(t) &&
      Position(t) == (Position(s) + 1) % FrameClocks
  {
  }

  /**
   * The tracker after the cycles whose colour outputs are `cs`, in order.
   * The column stays in 1..800 and the row in 1..525.
   */
  function Steps(s: Capture, cs: seq<bv8>): (t: Capture)
    ensures OnRaster(s) ==> OnRaster(t)
    decreases |cs|
  {
    if cs == [] then s else Steps(Step(s, cs[0]), cs[1..])
  }

  /** One more cycle at the end is one more `Step`. */
  lemma {:induction false} StepsSnoc(s: Capture, cs: seq<bv8>, uo: bv8)
    ensures Steps(s, cs + [uo]) == Step(Steps(s, cs), uo)
    decreases |cs|
  {
    if cs == [] {
      assert [] + [uo] == [uo];
    } else {
      assert (cs + [uo])[1..] == cs[1..] + [uo];
      StepsSnoc(Step(s, cs[0]), cs[1..], uo);
    }
  }

  /** Running two stretches of cycles is running their concatenation. */
  lemma {:induction false} StepsAppend(s: Capture, a: seq<bv8>, b: seq<bv8>)
    ensures Steps(s, a + b) == Steps(Steps(s, a), b)
    decreases |a|
  {
    if a == [] {
      assert [] + b == b;
    } else {
      assert (a + b)[1..] == a[1..] + b;
      StepsAppend(Step(s, a[0]), a[1..], b);
    }
  }

  /** The image only grows, by at most one byte a cycle. */
  lemma {:induction false} StepsBounds(s: Capture, cs: seq<bv8>)
    ensures s.frame <= Steps(s, cs).frame
    ensures |Steps(s, cs).frame| <= |s.frame| + |cs|
    decreases |cs|
  {
    if cs != [] {
      StepsBounds(Step(s, cs[0]), cs[1..]);
    }
  }

  /**
   * Once sampling, every cycle advances the scan position by one modulo
   * 800 x 525, and the leading-blank count no longer changes.
   */
  lemma {:induction false} StepsPosition(s: Capture, cs: seq<bv8>)
    requires Sampling(s) && OnRaster(s)
    ensures var t := Steps(s, cs);
      Sampling(t) && OnRaster(t) && t.leadingBlank == s.leadingBlank &&
      Position(t) == (Position(s) + |cs|) % FrameClocks
    decreases |cs|
  {
    if cs != [] {
      var t := Step(s, cs[0]);
      StepAdvances(s, cs[0]);
      StepsPosition(t, cs[1..]);
      var p := Position(s);
      assert (((p + 1) % FrameClocks) + (|cs| - 1)) % FrameClocks == (p + |cs|) % FrameClocks;
    }
  }

  /** A whole frame of 800 x 525 sampled cycles brings the column and row back where they were. */
  lemma FrameWrap(s: Capture, cs: seq<bv8>)
    requires Sampling(s) && OnRaster(s) && |cs| == FrameClocks
    ensures Steps(s, cs).column == s.column && Steps(s, cs).row == s.row
  {
    StepsPosition(s, cs);
    var t := Steps(s, cs);
    assert Position(t) == Position(s);
  }

  /** While in the leading blank, a cycle only counts: position and image are left alone. */
  lemma {:induction false} LeadingBlankSkips(s: Capture, cs: seq<bv8>)
    requires s.leadingBlank + |cs| <= SkippedCycles
    ensures Steps(s, cs) == s.(leadingBlank := s.leadingBlank + |cs|)
    decreases |cs|
  {
    if cs != [] {
      LeadingBlankSkips(Step(s, cs[0]), cs[1..]);
    }
  }

  /**
   * From the start, exactly the first 35318 cycles are skipped: the
   * tracker then samples from (1, 1) with an empty image and the count
   * stays at 35318.
   */
  lemma LeadingBlankThenSample(cs: seq<bv8>)
    requires |cs| >= SkippedCycles
    ensures Steps(Start, cs) == Steps(Capture(SkippedCycles, 1, 1, []), cs[SkippedCycles..])
    ensures Steps(Start, cs).leadingBlank == SkippedCycles
  {
    assert cs == cs[..SkippedCycles] + cs[SkippedCycles..];
    StepsAppend(Start, cs[..SkippedCycles], cs[SkippedCycles..]);
    LeadingBlankSkips(Start, cs[..SkippedCycles]);
    StepsPosition(Capture(SkippedCycles, 1, 1, []), cs[SkippedCycles..]);
  }

  function NextRow(row: int): int
  {
    if row == FrameLines then 1 else row + 1
  }

  /** The image bytes written while scanning the rest of a line from column `column`. */
  function LineBytes(column: int, row: int, cs: seq<bv8>): seq<bv8>
    requires 1 <= column
  {
    if row <= ActiveRows && column <= ActiveColumns && ActiveColumns + 1 - column <= |cs|
    then Colours(cs[..ActiveColumns + 1 - column])
    else []
  }

  /**
   * Sampling the rest of a line, from `column` through 800, writes the
   * colours of the visible columns of that line, in order, and leaves the
   * tracker at column 1 of the next row.
   */
  lemma {:induction false} LineRun(s: Capture, cs: seq<bv8>)
    requires Sampling(s) && OnRaster(s) && |cs| == LineClocks + 1 - s.column
    ensures Steps(s, cs) == Capture(s.leadingBlank, 1, NextRow(s.row), s.frame + LineBytes(s.column, s.row, cs))
    decreases |cs|
  {
    var written := if Active(s) then [GetRgb(cs[0])] else [];
    var t := Step(s, cs[0]);
    if s.column == LineClocks {
      assert t == Capture(s.leadingBlank, 1, NextRow(s.row), s.frame + written);
      assert LineBytes(s.column, s.row, cs) == [];
      assert cs[1..] == [];
    } else {
      assert t == Capture(s.leadingBlank, s.column + 1, s.row, s.frame + written);
      LineRun(t, cs[1..]);
      LineBytesCons(s.column, s.row, cs);
    }
  }

  /** The bytes of a line from `column` are the first one's colour, if visible, then those from `column + 1`. */
  lemma LineBytesCons(column: int, row: int, cs: seq<bv8>)
    requires 1 <= column < LineClocks && |cs| == LineClocks + 1 - column
    ensures LineBytes(column, row, cs) ==
      (if column <= ActiveColumns && row <= ActiveRows then [GetRgb(cs[0])] else []) + LineBytes(column + 1, row, cs[1..])
  {
    if column <= ActiveColumns && row <= ActiveRows {
      var n := ActiveColumns + 1 - column;
      assert cs[1..][..n - 1] == cs[..n][1..];
    }
  }

  /** The image written while scanning whole lines from column 1 of `row` to the end of the frame. */
  function FrameOf(cs: seq<bv8>, row: int): seq<bv8>
    decreases FrameLines + 1 - row
  {
    if row > FrameLines || |cs| < LineClocks then []
    else LineBytes(1, row, cs) + FrameOf(cs[LineClocks..], row + 1)
  }

  /** The image of the scan from `row` on is that row's line, then the image of the rows after it. */
  lemma FrameOfStep(cs: seq<bv8>, row: int)
    requires row <= FrameLines && |cs| >= LineClocks
    ensures FrameOf(cs, row) == LineBytes(1, row, cs[..LineClocks]) + FrameOf(cs[LineClocks..], row + 1)
  {
  }

  /** Scanning a whole line from column 1 and then the rest. */
  lemma LineThenRest(s: Capture, cs: seq<bv8>)
    requires Sampling(s) && OnRaster(s) && s.column == 1 && |cs| >= LineClocks
    ensures Steps(s, cs) ==
      Steps(Capture(s.leadingBlank, 1, NextRow(s.row), s.frame + LineBytes(1, s.row, cs[..LineClocks])), cs[LineClocks..])
  {
    assert cs == cs[..LineClocks] + cs[LineClocks..];
    StepsAppend(s, cs[..LineClocks], cs[LineClocks..]);
    LineRun(s, cs[..LineClocks]);
  }

  /** The image so far, then one line and the rest of the frame, is the image so far and the frame from `row` on. */
  lemma FrameJoin(frame: seq<bv8>, cs: seq<bv8>, row: int)
    requires row <= FrameLines && |cs| >= LineClocks
    ensures (frame + LineBytes(1, row, cs[..LineClocks])) + FrameOf(cs[LineClocks..], row + 1) == frame + FrameOf(cs, row)
  {
    FrameOfStep(cs, row);
  }

  /** Scanning the last line from column 1 writes its bytes and returns to (1, 1). */
  lemma LastLineRun(s: Capture, cs: seq<bv8>)
    requires Sampling(s) && OnRaster(s) && s.column == 1 && s.row == FrameLines && |cs| == LineClocks
    ensures Steps(s, cs) == Capture(s.leadingBlank, 1, 1, s.frame + FrameOf(cs, s.row))
  {
    LineThenRest(s, cs);
    FrameJoin(s.frame, cs, s.row);
    assert cs[LineClocks..] == [];
  }

  /** Scanning from column 1 of `row` to the end of the frame writes `FrameOf` and returns to (1, 1). */
  lemma {:induction false} FrameRun(s: Capture, cs: seq<bv8>)
    requires Sampling(s) && OnRaster(s) && s.column == 1 && |cs| == LineClocks * (FrameLines + 1 - s.row)
    ensures Steps(s, cs) == Capture(s.leadingBlank, 1, 1, s.frame + FrameOf(cs, s.row))
    decreases FrameLines + 1 - s.row
  {
    if s.row == FrameLines {
      LastLineRun(s, cs);
    } else {
      LineThenRest(s, cs);
      FrameJoin(s.frame, cs, s.row);
      FrameRun(Capture(s.leadingBlank, 1, s.row + 1, s.frame + LineBytes(1, s.row, cs[..LineClocks])), cs[LineClocks..]);
    }
  }

  /** From row `row` on, 640 bytes per visible row remain. */
  lemma {:induction false} FrameOfLength(cs: seq<bv8>, row: int)
    requires 1 <= row <= FrameLines && |cs| == LineClocks * (FrameLines + 1 - row)
    ensures |FrameOf(cs, row)| == if row <= ActiveRows then ActiveColumns * (ActiveRows + 1 - row) else 0
    decreases FrameLines + 1 - row
  {
    if row < FrameLines {
      FrameOfLength(cs[LineClocks..], row + 1);
    } else {
      assert FrameOf(cs[LineClocks..], row + 1) == [];
    }
  }

  /** An image that still has bytes to come starts on a visible row. */
  lemma FrameOfVisible(cs: seq<bv8>, row: int)
    requires 1 <= row <= FrameLines && |cs| == LineClocks * (FrameLines + 1 - row)
    requires |FrameOf(cs, row)| > 0
    ensures row <= ActiveRows
  {
    FrameOfLength(cs, row);
  }

  /**
   * The visible image in row-major order: from row `row` on, the byte at
   * column `c` of visible line `l` of the image is the colour of the cycle
   * at column `c` of line `l` of the sampled stretch.
   */
  lemma {:induction false} FrameOfRowMajor(cs: seq<bv8>, row: int, l: int, c: int)
    requires 1 <= row <= FrameLines && |cs| == LineClocks * (FrameLines + 1 - row)
    requires 0 <= l && 0 <= c < ActiveColumns && ActiveColumns * l + c < |FrameOf(cs, row)|
    ensures LineClocks * l + c < |cs| && FrameOf(cs, row)[ActiveColumns * l + c] == GetRgb(cs[LineClocks * l + c])
    decreases l
  {
    var line := LineBytes(1, row, cs);
    var rest := cs[LineClocks..];
    assert |rest| == LineClocks * (FrameLines + 1 - (row + 1));
    assert FrameOf(cs, row) == line + FrameOf(rest, row + 1);
    FrameOfVisible(cs, row);
    assert |line| == ActiveColumns;
    if l == 0 {
      assert FrameOf(cs, row)[c] == line[c];
    } else {
      var i, j := ActiveColumns * (l - 1) + c, LineClocks * (l - 1) + c;
      assert ActiveColumns * l + c == ActiveColumns + i;
      assert LineClocks * l + c == LineClocks + j;
      FrameOfRowMajor(rest, row + 1, l - 1, c);
      assert FrameOf(cs, row)[ActiveColumns + i] == FrameOf(rest, row + 1)[i];
      assert cs[LineClocks + j] == rest[j];
    }
  }

  /**
   * Over one full 800 x 525 frame sampled from (1, 1), exactly 640 x 480
   * bytes are written, in row-major order, and the tracker is back at (1, 1).
   */
  lemma FullFrame(s: Capture, cs: seq<bv8>)
    requires Sampling(s) && s.column == 1 && s.row == 1 && |cs| == FrameClocks
    ensures var t := Steps(s, cs);
      t.column == 1 && t.row == 1 && t.leadingBlank == s.leadingBlank &&
      t.frame == s.frame + FrameOf(cs, 1) &&
      |FrameOf(cs, 1)| == ActivePixels &&
      forall k :: 0 <= k < ActivePixels ==>
        FrameOf(cs, 1)[k] == GetRgb(cs[LineClocks * (k / ActiveColumns) + k % ActiveColumns])
  {
    FrameRun(s, cs);
    FrameOfLength(cs, 1);
    forall k | 0 <= k < ActivePixels
      ensures FrameOf(cs, 1)[k] == GetRgb(cs[LineClocks * (k / ActiveColumns) + k % ActiveColumns])
    {
      FrameOfRowMajor(cs, 1, k / ActiveColumns, k % ActiveColumns);
    }
  }
}
