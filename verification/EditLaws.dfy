/** What erasing, inserting, deleting and scrolling leave in every cell. */
module EditLaws {
  import opened VtTypes
  import opened Grid
  import opened Shifts
  import opened Arith
  import opened ScreenSpec
  import opened CursorLaws
  import Scrolling
  import C = CellInvariants

  // ---------------------------------------------------------------- lines

  /** IL, DL, SU and SD: the rows between the margins, or from the cursor to
      the bottom margin, go down or up by as many rows, and blanks come in;
      with the cursor outside the margins IL and DL do nothing. */
  lemma LinesMove(t: Tables, c: Core, params: seq<u16>)
    requires Wf(c)
    ensures var n, top, bottom, blank := Arg(params, 0), c.scrollTop, c.scrollBottom, BlankRow(c.cols, c.pen.bg);
            var inside := top <= c.cursorRow <= bottom;
            && StepCore(t, c, Control(0x4c, params))
               == (if inside then c.(grid := RowsDown(c.grid, c.cursorRow, bottom, n, blank)) else c)
            && StepCore(t, c, Control(0x4d, params))
               == (if inside then c.(grid := RowsUp(c.grid, c.cursorRow, bottom, n, blank)) else c)
            && StepCore(t, c, Control(0x53, params)) == c.(grid := RowsUp(c.grid, top, bottom, n, blank))
            && StepCore(t, c, Control(0x54, params)) == c.(grid := RowsDown(c.grid, top, bottom, n, blank))
  {
    var n := Arg(params, 0);
    FromCursor(c, n);
    BetweenMargins(c, n);
    EditStep(t, c, params, 0x4c);
    EditStep(t, c, params, 0x4d);
    EditStep(t, c, params, 0x53);
    EditStep(t, c, params, 0x54);
    hide StepCore, GridsOk, InsertLinesCore, DeleteLinesCore, ScrollUpTimes, ScrollDownTimes, RowsUp, RowsDown;
  }

  lemma EditStep(t: Tables, c: Core, params: seq<u16>, fin: u8)
    requires Wf(c) && IsEdit(fin)
    ensures StepCore(t, c, Control(fin, params)) == EditCore(c, params, fin)
    ensures CsiN(params, 0, 1) == Arg(params, 0)
  {
    hide Wf, EditCore;
  }

  lemma FromCursor(c: Core, n: u16)
    requires Wf(c) && n >= 1
    ensures var blank, inside := BlankRow(c.cols, c.pen.bg), c.scrollTop <= c.cursorRow <= c.scrollBottom;
            && InsertLinesCore(c, n)
               == (if inside then c.(grid := RowsDown(c.grid, c.cursorRow, c.scrollBottom, n, blank)) else c)
            && DeleteLinesCore(c, n)
               == (if inside then c.(grid := RowsUp(c.grid, c.cursorRow, c.scrollBottom, n, blank)) else c)
  {
    if c.scrollTop <= c.cursorRow <= c.scrollBottom {
      DeletedGoUp(c.grid, c.cursorRow, c.scrollBottom, n, BlankLine(c));
      InsertedGoDown(c.grid, c.cursorRow, c.scrollBottom, n, BlankLine(c));
    }
    hide RowsUp, RowsDown, LinesDeleted, LinesInserted, GridsOk;
  }

  lemma BetweenMargins(c: Core, n: u16)
    requires Wf(c)
    ensures var blank := BlankRow(c.cols, c.pen.bg);
            && ScrollUpTimes(c, n) == c.(grid := RowsUp(c.grid, c.scrollTop, c.scrollBottom, n, blank))
            && ScrollDownTimes(c, n) == c.(grid := RowsDown(c.grid, c.scrollTop, c.scrollBottom, n, blank))
  {
    hide RowsUp, RowsDown, LinesDeleted, LinesInserted, ScrollUpTimes, ScrollDownTimes;
    Scrolling.ScrollUpIs(c, n);
    Scrolling.ScrollDownIs(c, n);
    RegionMoves(c, n);
    hide GridsOk;
  }

  lemma RegionMoves(c: Core, n: u16)
    requires Wf(c)
    ensures var blank, m := BlankRow(c.cols, c.pen.bg), Min(n, Scrolling.Height(c));
            && LinesDeleted(c.grid, c.scrollTop, c.scrollBottom, m, blank)
               == RowsUp(c.grid, c.scrollTop, c.scrollBottom, n, blank)
            && LinesInserted(c.grid, c.scrollTop, c.scrollBottom, m, blank)
               == RowsDown(c.grid, c.scrollTop, c.scrollBottom, n, blank)
  {
    hide RowsUp, RowsDown, LinesDeleted, LinesInserted;
    DeletedGoUp(c.grid, c.scrollTop, c.scrollBottom, n, BlankLine(c));
    InsertedGoDown(c.grid, c.scrollTop, c.scrollBottom, n, BlankLine(c));
  }

  // ---------------------------------------------------------------- erasing

  /** No cell is at once the lead of one pair and the tail of another. */
  predicate OneHalf(cell: Cell) {
    !(IsLead(cell) && IsTail(cell))
  }

  ghost predicate OneHalves(row: Row) {
    forall k :: 0 <= k < |row| ==> OneHalf(row[k])
  }

  ghost predicate AllOneHalves(g: Rows) {
    forall r :: 0 <= r < |g| ==> OneHalves(g[r])
  }

  /** The cells outside `lo..hi` once those inside are gone: half of a pair
      whose other half was inside is blank, everything else is kept. */
  function Mended(row: Row, lo: nat, hi: nat, bg: Color): (r: Row)
    requires lo < hi <= |row|
    ensures |r| == |row|
  {
    seq(|row|, x requires 0 <= x < |row| =>
      if x + 1 == lo && IsLead(row[x]) && IsTail(row[lo]) then Blank(bg)
      else if x == hi && IsLead(row[hi - 1]) && IsTail(row[x]) then Blank(bg)
      else row[x])
  }

  function Erased(row: Row, lo: nat, hi: nat, bg: Color): (r: Row)
    requires hi <= |row|
    ensures |r| == |row|
  {
    if hi <= lo then row
    else seq(|row|, x requires 0 <= x < |row| => if lo <= x < hi then Blank(bg) else Mended(row, lo, hi, bg)[x])
  }

  lemma {:induction false} SmashMends(row: Row, lo: nat, hi: nat, bg: Color)
    requires OneHalves(row) && lo < hi <= |row|
    ensures var s := SmashRange(row, lo, hi, bg);
            && (forall x :: 0 <= x < |row| && !(lo <= x < hi) ==> s[x] == Mended(row, lo, hi, bg)[x])
            && (s[hi - 1] == row[hi - 1] || (IsTail(row[hi - 1]) && s[hi - 1] == Blank(bg)))
    decreases hi
  {
    assert OneHalf(row[hi - 1]);
    assert !IsLead(Blank(bg)) && !IsTail(Blank(bg));
    var s := SmashRange(row, lo, hi - 1, bg);
    if lo < hi - 1 {
      assert OneHalf(row[hi - 2]);
      SmashMends(row, lo, hi - 1, bg);
      assert s[hi - 1] == Mended(row, lo, hi - 1, bg)[hi - 1];
    } else {
      assert s == row;
    }
    hide OneHalf, OneHalves, IsLead, IsTail, Blank;
  }

  lemma EraseIs(row: Row, lo: nat, hi: nat, bg: Color)
    requires OneHalves(row) && hi <= |row|
    ensures EraseRow(row, lo, hi, bg) == Erased(row, lo, hi, bg)
  {
    if lo < hi {
      SmashMends(row, lo, hi, bg);
      var x, y := EraseRow(row, lo, hi, bg), Erased(row, lo, hi, bg);
      hide SmashRange, Mended, OneHalves;
      forall k | 0 <= k < |row| ensures x[k] == y[k] {
      }
    }
  }

  /** The columns of row `y` that ED, EL or ECH clears: ED 0 and 1 run from the
      cursor to the end and from the start to the cursor, EL stays on the
      cursor's row, ECH clears as many cells as it says. */
  function Extent(c: Core, fin: u8, params: seq<u16>, y: nat): (nat, nat) {
    var row, col, cols := c.cursorRow, c.cursorCol, c.cols;
    var mode := if |params| > 0 then params[0] else 0;
    if fin == 0x58 then (if y == row then (col, Min(cols, col + Arg(params, 0))) else (0, 0))
    else if mode == 0 then (if y == row then (col, cols) else if y > row && fin == 0x4a then (0, cols) else (0, 0))
    else if mode == 1 then (if y == row then (0, col + 1) else if y < row && fin == 0x4a then (0, cols) else (0, 0))
    else if y == row || fin == 0x4a then (0, cols) else (0, 0)
  }

  /** ED, EL and ECH blank exactly these cells, and with them the halves they
      leave of a pair, in the pen's background; nothing else changes. */
  lemma ErasesClear(t: Tables, c: Core, params: seq<u16>, fin: u8)
    requires Wf(c) && AllOneHalves(c.grid) && fin in {0x4a, 0x4b, 0x58}
    ensures var d := StepCore(t, c, Control(fin, params));
            && d == c.(grid := d.grid) && |d.grid| == c.rows
            && forall y :: 0 <= y < c.rows ==>
                 d.grid[y] == Erased(c.grid[y], Extent(c, fin, params, y).0, Extent(c, fin, params, y).1, c.pen.bg)
  {
    EditStep(t, c, params, fin);
    var s := SpanOf(c, params, fin);
    assert EditCore(c, params, fin) == EraseCore(c, s.0, s.1);
    hide StepCore, EditCore;
    forall y | 0 <= y < c.rows
      ensures EraseCore(c, s.0, s.1).grid[y]
           == Erased(c.grid[y], Extent(c, fin, params, y).0, Extent(c, fin, params, y).1, c.pen.bg)
    {
      assert OneHalves(c.grid[y]);
      EraseIs(c.grid[y], Clip(s.0, y, c.cols), Clip(s.1, y, c.cols), c.pen.bg);
      ExtentIs(c, params, fin, y);
      hide Wf, EraseRow, Erased, Clip, Extent, SpanOf, OneHalves;
    }
    hide EraseRow, Extent, SpanOf, Erased;
  }

  /** The flat span such a control erases. */
  function SpanOf(c: Core, params: seq<u16>, fin: u8): (s: (nat, nat))
    requires Wf(c) && fin in {0x4a, 0x4b, 0x58}
    ensures s.0 <= s.1 <= c.cols * c.rows
  {
    if fin == 0x4a then DisplaySpan(c, CsiN(params, 0, 0))
    else if fin == 0x4b then LineSpan(c, CsiN(params, 0, 0))
    else CharSpan(c, CsiN(params, 0, 1))
  }

  lemma ExtentIs(c: Core, params: seq<u16>, fin: u8, y: nat)
    requires Wf(c) && y < c.rows && fin in {0x4a, 0x4b, 0x58}
    ensures var s, e := SpanOf(c, params, fin), Extent(c, fin, params, y);
            var lo, hi := Clip(s.0, y, c.cols), Clip(s.1, y, c.cols);
            e.1 <= c.cols && ((lo, hi) == e || (lo >= hi && e.0 >= e.1))
  {
    hide GridsOk;
    RowInGrid(y, c.cols, c.rows);
    if y < c.cursorRow {
      RowsApart(y, c.cursorRow, c.cols);
    } else if c.cursorRow < y {
      RowsApart(c.cursorRow, y, c.cols);
    }
  }

  // ---------------------------------------------------------------- cells

  /** ICH pushes the cells from the cursor on to the right, off the edge; DCH
      pulls them to the left over the first of them, the halves this leaves of
      a pair going blank. Nothing else changes. */
  lemma CellsMove(t: Tables, c: Core, params: seq<u16>)
    requires Wf(c) && OneHalves(c.grid[c.cursorRow])
    ensures var row, col, n, bg := c.grid[c.cursorRow], c.cursorCol, Arg(params, 0), c.pen.bg;
            && StepCore(t, c, Control(0x40, params)) == c.(grid := c.grid[c.cursorRow := CellsRight(row, col, n, bg)])
            && StepCore(t, c, Control(0x50, params))
               == c.(grid := c.grid[c.cursorRow :=
                                      CellsLeft(Mended(row, col, Min(col + n, c.cols), bg), col, n, bg)])
  {
    EditStep(t, c, params, 0x40);
    EditStep(t, c, params, 0x50);
    hide StepCore, GridsOk, InsertCellsCore, DeleteCellsCore, CellsRight, CellsLeft, Mended, OneHalves;
    CellsAre(c, Arg(params, 0));
  }

  lemma CellsAre(c: Core, n: u16)
    requires Wf(c) && n >= 1 && OneHalves(c.grid[c.cursorRow])
    ensures var row, col, bg := c.grid[c.cursorRow], c.cursorCol, c.pen.bg;
            && InsertCellsCore(c, n) == c.(grid := c.grid[c.cursorRow := CellsRight(row, col, n, bg)])
            && DeleteCellsCore(c, n)
               == c.(grid := c.grid[c.cursorRow := CellsLeft(Mended(row, col, Min(col + n, c.cols), bg), col, n, bg)])
  {
    var row, col, bg := c.grid[c.cursorRow], c.cursorCol, c.pen.bg;
    InsertedGoRight(row, col, n, bg);
    DeletedGoLeft(row, col, n, bg);
    PulledLeft(row, col, n, bg);
    hide GridsOk, CellsRight, CellsLeft, CellsInserted, CellsDeleted, SmashRange, Mended, OneHalves;
  }

  lemma PulledLeft(row: Row, col: nat, n: nat, bg: Color)
    requires OneHalves(row) && col < |row| && n >= 1
    ensures var m := Min(n, |row| - col);
            CellsLeft(SmashRange(row, col, col + m, bg), col, n, bg)
            == CellsLeft(Mended(row, col, Min(col + n, |row|), bg), col, n, bg)
  {
    var m := Min(n, |row| - col);
    SmashMends(row, col, col + m, bg);
    var x := CellsLeft(SmashRange(row, col, col + m, bg), col, n, bg);
    var y := CellsLeft(Mended(row, col, Min(col + n, |row|), bg), col, n, bg);
    hide SmashRange, Mended, OneHalves;
    forall k | 0 <= k < |row| ensures x[k] == y[k] {
    }
  }

  // ---------------------------------------------------------------- every screen a program can reach

  lemma HalfBits(attrs: u16)
    ensures (Sgr(attrs) + WIDE_LEAD) / 16 % 2 == 0 && (Sgr(attrs) + WIDE_TAIL) / 8 % 2 == 0
    ensures Sgr(attrs) / 8 == 0
  {
  }

  lemma HalvesWritten(t: Tables, c: Core, a: Action)
    requires Wf(c)
    ensures C.Blanks(OneHalf) && C.Writes(t, OneHalf, c, a)
  {
    forall pen: Pen, ch: u32
      ensures OneHalf(C.Stamp(ch, pen, 0)) && OneHalf(C.Stamp(ch, pen, WIDE_LEAD)) && OneHalf(C.Stamp(ch, pen, WIDE_TAIL))
    {
      HalfBits(pen.attrs);
    }
    forall x: Cell ensures OneHalf(C.Widened(x, WIDE_LEAD)) && OneHalf(C.Widened(x, WIDE_TAIL)) {
      HalfBits(x.attrs);
    }
    hide OneHalf, Wf, C.Stamp, C.Widened;
    forall bg: Color ensures OneHalf(Blank(bg)) {
      BlankOneHalf(bg);
    }
  }

  lemma BlankOneHalf(bg: Color)
    ensures OneHalf(Blank(bg))
  {
  }

  /** The laws above speak of every screen there is: on a new one no cell is two
      halves, and nothing a program sends makes one. */
  lemma {:induction false} RunKeepsHalves(t: Tables, c: Core, acts: seq<Action>)
    requires Wf(c) && C.CellsHold(OneHalf, c)
    ensures AllOneHalves(c.grid) && C.CellsHold(OneHalf, StepAllCore(t, c, acts))
    decreases acts
  {
    assert AllOneHalves(c.grid) by {
      forall r | 0 <= r < |c.grid| ensures OneHalves(c.grid[r]) {
        assert C.RowHolds(OneHalf, c.grid[r]);
      }
    }
    if acts != [] {
      HalvesWritten(t, c, acts[0]);
      hide C.CellsHold, Wf, StepCore, C.Blanks, C.Writes;
      C.StepHolds(t, OneHalf, c, acts[0]);
      RunKeepsHalves(t, StepCore(t, c, acts[0]), acts[1..]);
    }
  }

  lemma NewHalves(t: Tables, cols: u16, rows: u16)
    requires cols > 0 && rows > 0 && WfPalette(t.palette)
    ensures C.CellsHold(OneHalf, NewCore(t, cols, rows))
  {
    BlankOneHalf(Default);
  }
}
