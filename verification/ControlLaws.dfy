/** Laws between the screen's controls: the same effect asked for in different
    ways, and controls that undo one another. */
module ControlLaws {
  import opened VtTypes
  import opened Grid
  import opened Arith
  import opened ScreenSpec
  import opened Digits
  import P = ParserSpec
  import F = CsiFidelity

  function Move(fin: u8, params: seq<u16>): Action {
    Csi(params, [], false, fin)
  }

  /** A cursor move is `SetCursor` to where it asks to go. */
  lemma MoveIs(t: Tables, c: Core, fin: u8, params: seq<u16>)
    requires Wf(c) && IsMove(fin)
    ensures StepCore(t, c, Move(fin, params))
         == SetCursor(c, MoveTo(c.cursorRow, c.cursorCol, params, fin).0, MoveTo(c.cursorRow, c.cursorCol, params, fin).1)
  {
    hide GridsOk, SetCursor, MoveTo;
  }

  /** What DSR 6 answers has CUP's own form, with the final byte of a report. */
  lemma ReportIsSequence(row: u16, col: u16)
    ensures CursorReport(row, col) == F.Sequence([], [SatAdd16(row, 1), SatAdd16(col, 1)], 0x52)
  {
    hide F.Sequence, F.Joined, Decimal;
    var a, b := SatAdd16(row, 1), SatAdd16(col, 1);
    F.SequenceIs([], [a, b], 0x52);
    F.SequenceIs([], [a], 0x52);
    F.JoinedPush([a], b);
    assert [a] + [b] == [a, b];
  }

  lemma ReportReads(row: u16, col: u16)
    requires row < 0xFFFF && col < 0xFFFF
    ensures P.Run(P.NEW, CursorReport(row, col)) == P.Out(P.NEW, [Csi([row + 1, col + 1], [], false, 0x52)])
  {
    hide P.Run, F.Sequence, CursorReport;
    ReportIsSequence(row, col);
    F.NumbersSurvive(P.NEW, [], [row + 1, col + 1], 0x52);
  }

  lemma PlaceIs(t: Tables, d: Core, fin: u8, row: u16, col: u16)
    requires Wf(d) && row < d.rows && col < d.cols && (fin == 0x48 || fin == 0x66)
    ensures StepCore(t, d, Move(fin, [row + 1, col + 1]))
         == d.(cursorRow := row, cursorCol := col, pendingWrap := false, cluster := None)
  {
    hide StepCore, GridsOk;
    MoveIs(t, d, fin, [row + 1, col + 1]);
  }

  /** A cursor report round-trips. Whoever reads the answer to DSR 6 reads the
      two numbers of one control sequence, and those numbers, given to CUP or
      to HVP on any screen of the same size, put the cursor where it was and
      change nothing else but the pending wrap and the open cluster. */
  lemma ReportLeadsBack(t: Tables, c: Core, f: Fx, d: Core, fin: u8)
    requires Wf(c) && Wf(d) && d.cols == c.cols && d.rows == c.rows && (fin == 0x48 || fin == 0x66)
    requires !f.discard && |f.replies| + |CursorReport(c.cursorRow, c.cursorCol)| <= REPLY_CAP
    ensures var after := StepFx(t, c, f, Move(0x6e, [6])).replies;
            var place := [c.cursorRow + 1, c.cursorCol + 1];
            && f.replies <= after
            && P.Run(P.NEW, after[|f.replies|..]) == P.Out(P.NEW, [Csi(place, [], false, 0x52)])
            && StepCore(t, d, Move(fin, place))
               == d.(cursorRow := c.cursorRow, cursorCol := c.cursorCol, pendingWrap := false, cluster := None)
  {
    hide StepCore, StepFx, GridsOk, P.Run, CursorReport;
    ReportReads(c.cursorRow, c.cursorCol);
    PlaceIs(t, d, fin, c.cursorRow, c.cursorCol);
    ReportSent(t, c, f);
    var report := CursorReport(c.cursorRow, c.cursorCol);
    assert (f.replies + report)[|f.replies|..] == report;
  }

  lemma ReportSent(t: Tables, c: Core, f: Fx)
    requires Wf(c) && !f.discard && |f.replies| + |CursorReport(c.cursorRow, c.cursorCol)| <= REPLY_CAP
    ensures StepFx(t, c, f, Move(0x6e, [6])).replies == f.replies + CursorReport(c.cursorRow, c.cursorCol)
  {
    hide Wf, CursorReport;
  }

  // ---------------------------------------------------------------- erasing

  lemma WholeSpan(cols: nat, rows: nat, from: nat, end: nat, r: nat)
    requires r < rows && from <= r * cols && r * cols + cols <= end
    ensures Clip(from, r, cols) == 0 && Clip(end, r, cols) == cols
  {
  }

  /** Erasing to the cursor and from the cursor, in either order, is erasing
      everything. */
  lemma EraseBothEnds(c: Core, i: nat)
    requires Wf(c) && i < c.cols * c.rows
    ensures var all := BlankGrid(c.cols, c.rows, c.pen.bg);
            EraseCore(c, 0, c.cols * c.rows).grid == all
            && EraseCore(EraseCore(c, 0, i + 1), i, c.cols * c.rows).grid == all
            && EraseCore(EraseCore(c, i, c.cols * c.rows), 0, i + 1).grid == all
  {
    var n := c.cols * c.rows;
    var bg, whole := c.pen.bg, EraseCore(c, 0, n).grid;
    var up, down := EraseCore(EraseCore(c, 0, i + 1), i, n).grid, EraseCore(EraseCore(c, i, n), 0, i + 1).grid;
    forall r | 0 <= r < c.rows
      ensures whole[r] == BlankRow(c.cols, bg) && up[r] == BlankRow(c.cols, bg) && down[r] == BlankRow(c.cols, bg)
    {
      RowInGrid(r, c.cols, c.rows);
      WholeSpan(c.cols, c.rows, 0, n, r);
      var k, j: nat := Clip(i, r, c.cols), Clip(i + 1, r, c.cols);
      assert Clip(0, r, c.cols) == 0 && Clip(n, r, c.cols) == c.cols && k <= j;
      EraseRest(c.grid[r], k, j, bg);
    }
  }

  /** On one row: two ranges that meet cover it, whatever was smashed. */
  lemma EraseRest(row: Row, k: nat, j: nat, bg: Color)
    requires k <= j <= |row|
    ensures EraseRow(row, 0, |row|, bg) == BlankRow(|row|, bg)
    ensures EraseRow(EraseRow(row, 0, j, bg), k, |row|, bg) == BlankRow(|row|, bg)
    ensures EraseRow(EraseRow(row, k, |row|, bg), 0, j, bg) == BlankRow(|row|, bg)
  {
    BlankStays(EraseRow(row, 0, j, bg), 0, j, k, |row|, bg);
    BlankStays(EraseRow(row, k, |row|, bg), k, |row|, 0, j, bg);
    hide SmashRange;
  }

  /** Smashing and erasing leave blanks of the background blank. */
  lemma {:induction false} SmashKeepsBlanks(row: Row, lo: nat, hi: nat, bg: Color, k: nat)
    requires k < |row| && row[k] == Blank(bg)
    ensures SmashRange(row, lo, hi, bg)[k] == Blank(bg)
    decreases hi
  {
    if lo < hi {
      SmashKeepsBlanks(row, lo, hi - 1, bg, k);
    }
  }

  lemma BlankStays(row: Row, a: nat, b: nat, lo: nat, hi: nat, bg: Color)
    requires a <= b <= |row| && hi <= |row| && forall k :: a <= k < b ==> row[k] == Blank(bg)
    ensures forall k :: a <= k < b || lo <= k < hi ==> EraseRow(row, lo, hi, bg)[k] == Blank(bg)
  {
    forall k | a <= k < b ensures SmashRange(row, lo, hi, bg)[k] == Blank(bg) {
      SmashKeepsBlanks(row, lo, hi, bg, k);
    }
    hide SmashRange, Blank;
  }

  // ---------------------------------------------------------------- renditions

  /** The three ways to name one of the sixteen colours agree. */
  lemma ColorFormsAgree(pen: Pen, n: u16)
    requires n < 16
    ensures ApplySgr(pen, [38, 5, n]) == ApplySgr(pen, [if n < 8 then 30 + n else 90 + (n - 8)])
    ensures ApplySgr(pen, [48, 5, n]) == ApplySgr(pen, [if n < 8 then 40 + n else 100 + (n - 8)])
  {
    var fg, bg := if n < 8 then 30 + n else 90 + (n - 8), if n < 8 then 40 + n else 100 + (n - 8);
    assert SgrFrom(pen, [38, 5, n], 0) == SgrFrom(WithColor(pen, true, Indexed(n)), [38, 5, n], 3);
    assert SgrFrom(pen, [48, 5, n], 0) == SgrFrom(WithColor(pen, false, Indexed(n)), [48, 5, n], 3);
    assert SgrFrom(pen, [fg], 0) == SgrFrom(SgrOne(pen, fg), [fg], 1);
    assert SgrFrom(pen, [bg], 0) == SgrFrom(SgrOne(pen, bg), [bg], 1);
  }

  /** Turning a rendition on and off again leaves the pen as if it had been
      turned off at once, and touches no other bit. */
  lemma OffUndoesOn(pen: Pen, which: nat)
    requires which < 3
    ensures var on, off := [1, 4, 7][which], [22, 24, 27][which];
            ApplySgr(ApplySgr(pen, [on]), [off]) == ApplySgr(pen, [off])
  {
    var on, off := [1, 4, 7][which], [22, 24, 27][which];
    var p := SgrOne(pen, on);
    assert SgrFrom(pen, [on], 0) == SgrFrom(p, [on], 1) == p;
    assert SgrFrom(p, [off], 0) == SgrFrom(SgrOne(p, off), [off], 1) == SgrOne(p, off);
    assert SgrFrom(pen, [off], 0) == SgrFrom(SgrOne(pen, off), [off], 1) == SgrOne(pen, off);
    hide SgrFrom;
    Bits(pen.attrs, [1, 2, 4][which]);
  }

  lemma Bits(attrs: u16, bit: u16)
    requires bit in {1, 2, 4}
    ensures ClearBit(SetBit(attrs, bit), bit) == ClearBit(attrs, bit)
  {
    if attrs / bit % 2 == 0 {
      assert (attrs + bit) / bit == attrs / bit + 1;
    }
  }

  /** Renditions given together are the same as one after another. */
  lemma {:induction false} SgrSplits(pen: Pen, a: seq<u16>, b: seq<u16>, i: nat)
    requires i <= |a| && forall k :: 0 <= k < |a| ==> a[k] != 38 && a[k] != 48
    ensures SgrFrom(pen, a + b, i) == SgrFrom(SgrFrom(pen, a, i), b, 0)
    decreases |a| - i
  {
    if i == |a| {
      SgrShift(pen, a, b, 0);
    } else {
      SgrSplits(SgrOne(pen, a[i]), a, b, i + 1);
    }
    hide SgrOne;
  }

  /** What was read already does not matter. */
  lemma {:induction false} SgrShift(pen: Pen, a: seq<u16>, b: seq<u16>, j: nat)
    requires j <= |b|
    ensures SgrFrom(pen, a + b, |a| + j) == SgrFrom(pen, b, j)
    decreases |b| - j
  {
    if j < |b| {
      var n := b[j];
      if n == 38 || n == 48 {
        if j + 1 < |b| && b[j + 1] == 5 && j + 2 < |b| {
          SgrShift(WithColor(pen, n == 38, PaintIndexed(b[j + 2])), a, b, j + 3);
        } else if j + 1 < |b| && b[j + 1] == 2 && j + 4 < |b| {
          var c := Rgb(Min(b[j + 2], 255), Min(b[j + 3], 255), Min(b[j + 4], 255));
          SgrShift(WithColor(pen, n == 38, c), a, b, j + 5);
        } else if j + 1 < |b| && b[j + 1] == 2 {
          SgrShift(pen, a, b, j + 2);
        } else if j + 1 == |b| || b[j + 1] != 5 {
          SgrShift(pen, a, b, j + 1);
        }
      } else {
        SgrShift(SgrOne(pen, n), a, b, j + 1);
      }
    }
    hide SgrOne;
  }
}
