/** A property of single cells, kept by everything the screen does: it holds of
    blanks, of what is printed, and of a cell that is widened. */
module CellInvariants {
  import opened VtTypes
  import opened Grid
  import opened ScreenSpec
  import W = WidePairs

  ghost predicate RowHolds(p: Cell -> bool, row: Row) {
    forall k :: 0 <= k < |row| ==> p(row[k])
  }

  ghost predicate RowsHold(p: Cell -> bool, g: Rows) {
    forall r :: 0 <= r < |g| ==> RowHolds(p, g[r])
  }

  /** On the screen and on the one saved behind it. */
  ghost predicate CellsHold(p: Cell -> bool, c: Core) {
    RowsHold(p, c.grid) && (c.savedGrid.Some? ==> RowsHold(p, c.savedGrid.value))
  }

  ghost predicate Blanks(p: Cell -> bool) {
    forall bg: Color :: p(Blank(bg))
  }

  /** A character as it is put into a cell, with the bit of a lead or a tail. */
  function Stamp(ch: u32, pen: Pen, bit: u16): Cell
    requires bit <= WIDE_TAIL
  {
    Cell(ch, pen.fg, pen.bg, Sgr(pen.attrs) + bit)
  }

  ghost predicate Stamps(t: Tables, p: Cell -> bool, ch: u32) {
    forall pen: Pen ::
      if t.wide(ch) then p(Stamp(ch, pen, WIDE_LEAD)) && p(Stamp(ch, pen, WIDE_TAIL)) else p(Stamp(ch, pen, 0))
  }

  /** A cell made half of a pair. */
  function Widened(c: Cell, bit: u16): Cell
    requires bit <= WIDE_TAIL
  {
    c.(attrs := Sgr(c.attrs) + bit)
  }

  ghost predicate Widens(p: Cell -> bool) {
    forall c: Cell :: p(c) ==> p(Widened(c, WIDE_LEAD)) && p(Widened(c, WIDE_TAIL))
  }

  /** Whatever the action writes into a cell has the property. */
  ghost predicate Writes(t: Tables, p: Cell -> bool, c: Core, a: Action) {
    a.Print? ==>
      if ShouldAppend(t, c, a.c) then IsRegionalIndicator(a.c) ==> Widens(p) else Stamps(t, p, a.c)
  }

  // ---------------------------------------------------------------- rows

  lemma SmashHolds(p: Cell -> bool, row: Row, col: nat, bg: Color)
    requires Blanks(p) && RowHolds(p, row)
    ensures RowHolds(p, Smash(row, col, bg))
  {
    assert p(Blank(bg));
    hide IsLead, IsTail, Blank;
  }

  lemma {:induction false} SmashRangeHolds(p: Cell -> bool, row: Row, lo: nat, hi: nat, bg: Color)
    requires Blanks(p) && RowHolds(p, row)
    ensures RowHolds(p, SmashRange(row, lo, hi, bg))
    decreases hi
  {
    if lo < hi {
      SmashRangeHolds(p, row, lo, hi - 1, bg);
      SmashHolds(p, SmashRange(row, lo, hi - 1, bg), hi - 1, bg);
    }
    hide RowHolds, Blanks, Smash;
  }

  lemma BlankRowHolds(p: Cell -> bool, cols: nat, bg: Color)
    requires Blanks(p)
    ensures RowHolds(p, BlankRow(cols, bg))
  {
  }

  lemma EraseHolds(p: Cell -> bool, row: Row, lo: nat, hi: nat, bg: Color)
    requires Blanks(p) && RowHolds(p, row) && hi <= |row|
    ensures RowHolds(p, EraseRow(row, lo, hi, bg))
  {
    SmashRangeHolds(p, row, lo, hi, bg);
    assert p(Blank(bg));
    hide Blanks, SmashRange, Blank;
  }

  lemma DeleteHolds(p: Cell -> bool, row: Row, col: nat, n: nat, bg: Color)
    requires Blanks(p) && RowHolds(p, row) && col + n <= |row|
    ensures RowHolds(p, CellsDeleted(row, col, n, bg))
  {
    SmashRangeHolds(p, row, col, col + n, bg);
    assert p(Blank(bg));
    hide Blanks, SmashRange, Blank;
  }

  lemma InsertHolds(p: Cell -> bool, row: Row, col: nat, n: nat, bg: Color)
    requires Blanks(p) && RowHolds(p, row) && col + n <= |row|
    ensures RowHolds(p, CellsInserted(row, col, n, bg))
  {
    assert p(Blank(bg));
    hide Blanks, Blank;
  }

  lemma PutHolds(t: Tables, p: Cell -> bool, row: Row, col: nat, ch: u32, pen: Pen)
    requires Blanks(p) && RowHolds(p, row) && col + ClusterWidth(t, ch) <= |row| && Stamps(t, p, ch)
    ensures RowHolds(p, PutRow(row, col, ClusterWidth(t, ch), ch, pen))
  {
    SmashHolds(p, row, col, pen.bg);
    SmashHolds(p, Smash(row, col, pen.bg), col + 1, pen.bg);
    assert if t.wide(ch) then p(Stamp(ch, pen, WIDE_LEAD)) && p(Stamp(ch, pen, WIDE_TAIL)) else p(Stamp(ch, pen, 0));
    hide Stamps, Blanks, Smash, Sgr;
  }

  lemma ExpandHolds(p: Cell -> bool, row: Row, col: nat, bg: Color)
    requires Blanks(p) && RowHolds(p, row) && col + 1 < |row| && Widens(p)
    ensures RowHolds(p, ExpandedRow(row, col, bg))
  {
    SmashHolds(p, row, col + 1, bg);
    var lead := Smash(row, col + 1, bg)[col];
    assert p(Widened(lead, WIDE_LEAD)) && p(Widened(lead, WIDE_TAIL));
    hide Widens, Blanks, Smash, Sgr;
  }

  // ---------------------------------------------------------------- the screen

  lemma RowReplaced(p: Cell -> bool, g: Rows, r: nat, row: Row)
    requires RowsHold(p, g) && r < |g| && RowHolds(p, row)
    ensures RowsHold(p, g[r := row])
  {
    hide RowHolds;
  }

  lemma LinesHold(p: Cell -> bool, g: Rows, first: nat, last: nat, n: nat, blank: Row)
    requires RowsHold(p, g) && RowHolds(p, blank) && first <= last < |g| && n <= last + 1 - first
    ensures RowsHold(p, LinesDeleted(g, first, last, n, blank)) && RowsHold(p, LinesInserted(g, first, last, n, blank))
  {
    hide RowHolds;
  }

  lemma ScrollHolds(p: Cell -> bool, c: Core)
    requires Blanks(p) && Wf(c) && CellsHold(p, c)
    ensures CellsHold(p, ScrollUp(c)) && CellsHold(p, ScrollDown(c))
    ensures CellsHold(p, Index(c)) && CellsHold(p, ReverseIndex(c))
  {
    BlankRowHolds(p, c.cols, c.pen.bg);
    LinesHold(p, c.grid, c.scrollTop, c.scrollBottom, 1, BlankLine(c));
    hide RowsHold, RowHolds, LinesDeleted, LinesInserted, GridsOk;
  }

  lemma {:induction false} ScrollTimesHold(p: Cell -> bool, c: Core, n: nat)
    requires Blanks(p) && Wf(c) && CellsHold(p, c)
    ensures CellsHold(p, ScrollUpTimes(c, n)) && CellsHold(p, ScrollDownTimes(c, n))
  {
    if n > 0 {
      ScrollTimesHold(p, c, n - 1);
      ScrollHolds(p, ScrollUpTimes(c, n - 1));
      ScrollHolds(p, ScrollDownTimes(c, n - 1));
    }
    hide CellsHold, Wf, ScrollUp, ScrollDown;
  }

  lemma SpanHolds(p: Cell -> bool, c: Core, from: nat, end: nat)
    requires Blanks(p) && Wf(c) && CellsHold(p, c)
    ensures CellsHold(p, EraseCore(c, from, end))
  {
    var h := EraseCore(c, from, end).grid;
    hide RowHolds, EraseRow, Clip;
    forall r | 0 <= r < |h| ensures RowHolds(p, h[r]) {
      EraseHolds(p, c.grid[r], Clip(from, r, c.cols), Clip(end, r, c.cols), c.pen.bg);
    }
  }

  lemma CellEditsHold(p: Cell -> bool, c: Core, n: u16)
    requires Blanks(p) && Wf(c) && CellsHold(p, c)
    ensures CellsHold(p, DeleteCellsCore(c, n)) && CellsHold(p, InsertCellsCore(c, n))
  {
    var row, k := c.grid[c.cursorRow], Min(n, c.cols - c.cursorCol);
    DeleteHolds(p, row, c.cursorCol, k, c.pen.bg);
    InsertHolds(p, row, c.cursorCol, k, c.pen.bg);
    RowReplaced(p, c.grid, c.cursorRow, CellsDeleted(row, c.cursorCol, k, c.pen.bg));
    RowReplaced(p, c.grid, c.cursorRow, CellsInserted(row, c.cursorCol, k, c.pen.bg));
    hide RowsHold, RowHolds, CellsInserted, CellsDeleted, GridsOk;
  }

  lemma LineEditsHold(p: Cell -> bool, c: Core, n: u16)
    requires Blanks(p) && Wf(c) && CellsHold(p, c)
    ensures CellsHold(p, InsertLinesCore(c, n)) && CellsHold(p, DeleteLinesCore(c, n))
  {
    BlankRowHolds(p, c.cols, c.pen.bg);
    if InRegion(c) {
      LinesHold(p, c.grid, c.cursorRow, c.scrollBottom, LineCount(c, n), BlankLine(c));
    }
    hide RowsHold, RowHolds, LinesDeleted, LinesInserted, GridsOk;
  }

  lemma EditHolds(p: Cell -> bool, c: Core, params: seq<u16>, fin: u8)
    requires Blanks(p) && Wf(c) && CellsHold(p, c) && IsEdit(fin)
    ensures CellsHold(p, EditCore(c, params, fin))
  {
    var n := CsiN(params, 0, 1);
    hide CellsHold, Wf, EraseCore, InsertLinesCore, DeleteLinesCore, InsertCellsCore, DeleteCellsCore;
    hide ScrollUpTimes, ScrollDownTimes, DisplaySpan, LineSpan, CharSpan;
    if fin == 0x4a {
      var s := DisplaySpan(c, CsiN(params, 0, 0));
      SpanHolds(p, c, s.0, s.1);
    } else if fin == 0x4b {
      var s := LineSpan(c, CsiN(params, 0, 0));
      SpanHolds(p, c, s.0, s.1);
    } else if fin == 0x58 {
      var s := CharSpan(c, n);
      SpanHolds(p, c, s.0, s.1);
    } else if fin == 0x4c || fin == 0x4d {
      LineEditsHold(p, c, n);
    } else if fin == 0x40 || fin == 0x50 {
      CellEditsHold(p, c, n);
    } else {
      ScrollTimesHold(p, c, n);
    }
  }

  /** An operation that moves no cell. */
  lemma SameCells(p: Cell -> bool, c: Core, d: Core)
    requires CellsHold(p, c) && d.grid == c.grid && d.savedGrid == c.savedGrid
    ensures CellsHold(p, d)
  {
  }

  lemma WrapHolds(p: Cell -> bool, c: Core, width: u16)
    requires Blanks(p) && Wf(c) && CellsHold(p, c)
    ensures CellsHold(p, WrapIfNeeded(c, width))
  {
    var d := c.(pendingWrap := false, cursorCol := 0);
    SameCells(p, c, d);
    SameCells(p, c, c.(pendingWrap := false));
    ScrollHolds(p, d);
    hide CellsHold, Index, GridsOk;
  }

  lemma PlaceHolds(t: Tables, p: Cell -> bool, c: Core, ch: u32)
    requires Blanks(p) && Wf(c) && CellsHold(p, c) && Stamps(t, p, ch)
    ensures CellsHold(p, Place(c, ch, ClusterWidth(t, ch)))
  {
    var width := ClusterWidth(t, ch);
    if c.cursorCol + width <= c.cols {
      PutHolds(t, p, c.grid[c.cursorRow], c.cursorCol, ch, c.pen);
      RowReplaced(p, c.grid, c.cursorRow, PutRow(c.grid[c.cursorRow], c.cursorCol, width, ch, c.pen));
    }
    hide RowsHold, RowHolds, PutRow, GridsOk;
  }

  lemma ExpandClusterHolds(p: Cell -> bool, c: Core)
    requires Blanks(p) && Wf(c) && CellsHold(p, c) && Widens(p)
    ensures CellsHold(p, Expand(c))
  {
    if Expands(c) {
      var cl := c.cluster.value;
      ExpandHolds(p, c.grid[cl.row], cl.col, c.pen.bg);
      RowReplaced(p, c.grid, cl.row, ExpandedRow(c.grid[cl.row], cl.col, c.pen.bg));
    }
    hide RowsHold, RowHolds, ExpandedRow, GridsOk;
  }

  lemma WriteHolds(t: Tables, p: Cell -> bool, c: Core, ch: u32)
    requires Blanks(p) && Wf(c) && CellsHold(p, c) && Writes(t, p, c, Print(ch))
    ensures CellsHold(p, WriteChar(t, c, ch))
  {
    hide CellsHold, Wf, Widens, Stamps, Blanks;
    if ShouldAppend(t, c, ch) {
      var a := Append(c, ch);
      SameCells(p, c, a);
      if IsRegionalIndicator(ch) {
        ExpandClusterHolds(p, a);
      }
      hide Expand;
    } else {
      WrapHolds(p, c, ClusterWidth(t, ch));
      PlaceHolds(t, p, WrapIfNeeded(c, ClusterWidth(t, ch)), ch);
      hide WrapIfNeeded, Place;
    }
  }

  lemma AltHolds(p: Cell -> bool, c: Core, b: bool)
    requires Blanks(p) && Wf(c) && CellsHold(p, c)
    ensures CellsHold(p, EnterAlt(c, b)) && CellsHold(p, LeaveAlt(c, b))
  {
    BlankRowHolds(p, c.cols, c.pen.bg);
    hide RowHolds, GridsOk;
  }

  lemma PrivateOneHolds(p: Cell -> bool, c: Core, mode: u16, on: bool)
    requires Blanks(p) && Wf(c) && CellsHold(p, c)
    ensures CellsHold(p, PrivateOne(c, mode, on))
  {
    AltHolds(p, c, mode == 1049);
    hide CellsHold, Wf, EnterAlt, LeaveAlt;
    if mode != 1047 && mode != 1049 {
      SameCells(p, c, PrivateOne(c, mode, on));
    }
  }

  lemma {:induction false} PrivateHolds(p: Cell -> bool, c: Core, params: seq<u16>, n: nat, on: bool)
    requires Blanks(p) && Wf(c) && CellsHold(p, c) && n <= |params|
    ensures CellsHold(p, PrivateModes(c, params, n, on))
  {
    hide CellsHold, Wf, PrivateOne, Blanks;
    if n > 0 {
      PrivateHolds(p, c, params, n - 1, on);
      PrivateOneHolds(p, PrivateModes(c, params, n - 1, on), params[n - 1], on);
    }
  }

  lemma ExecuteHolds(p: Cell -> bool, c: Core, b: u8)
    requires Blanks(p) && Wf(c) && CellsHold(p, c)
    ensures CellsHold(p, ExecuteCore(c, b))
  {
    var s := c.(pendingWrap := false, cluster := None);
    SameCells(p, c, s);
    ScrollHolds(p, s);
    hide CellsHold, GridsOk, Index;
    if !(0x0a <= b <= 0x0c) {
      SameCells(p, c, ExecuteCore(c, b));
    }
  }

  lemma IndexAtHolds(p: Cell -> bool, c: Core, col: u16)
    requires Blanks(p) && Wf(c) && CellsHold(p, c) && col < c.cols
    ensures CellsHold(p, Index(c.(pendingWrap := false, cursorCol := col)))
    ensures CellsHold(p, ReverseIndex(c.(pendingWrap := false)))
  {
    SameCells(p, c, c.(pendingWrap := false, cursorCol := col));
    SameCells(p, c, c.(pendingWrap := false));
    hide CellsHold, GridsOk, Index, ReverseIndex;
    ScrollHolds(p, c.(pendingWrap := false, cursorCol := col));
    ScrollHolds(p, c.(pendingWrap := false));
  }

  lemma EscHolds(p: Cell -> bool, c: Core, inters: seq<u8>, b: u8)
    requires Blanks(p) && Wf(c) && CellsHold(p, c)
    ensures CellsHold(p, EscCore(c, inters, b))
  {
    hide CellsHold, GridsOk, Index, ReverseIndex, Blanks;
    if b == 0x45 {
      IndexAtHolds(p, c, 0);
    } else if b == 0x44 || b == 0x4d {
      IndexAtHolds(p, c, c.cursorCol);
      assert c.(pendingWrap := false) == c.(pendingWrap := false, cursorCol := c.cursorCol);
    } else {
      W.EscSame(c, inters, b);
      hide EscCore;
      SameCells(p, c, EscCore(c, inters, b));
    }
  }

  lemma CsiHolds(p: Cell -> bool, c: Core, params: seq<u16>, fin: u8)
    requires Blanks(p) && Wf(c) && CellsHold(p, c)
    ensures CellsHold(p, CsiCore(c, params, fin))
  {
    hide CellsHold, GridsOk, EditCore;
    if IsEdit(fin) {
      EditHolds(p, c, params, fin);
    } else {
      SameCells(p, c, CsiCore(c, params, fin));
    }
  }

  // ---------------------------------------------------------------- one action, any run of actions

  lemma StepHolds(t: Tables, p: Cell -> bool, c: Core, a: Action)
    requires Blanks(p) && Wf(c) && CellsHold(p, c) && Writes(t, p, c, a)
    ensures CellsHold(p, StepCore(t, c, a))
  {
    hide CellsHold, Wf, WriteChar, ExecuteCore, EscCore, CsiCore, PrivateModes, Writes, Blanks;
    match a
    case Print(ch) => WriteHolds(t, p, c, ch);
    case Execute(b) => ExecuteHolds(p, c, b);
    case Esc(inters, b) => EscHolds(p, c, inters, b);
    case Csi(params, inters, ignore, fin) =>
      PrivateHolds(p, c, params, |params|, fin == 0x68);
      CsiHolds(p, c, params, fin);
    case Osc(_) =>
  }

  ghost predicate AllWrite(t: Tables, p: Cell -> bool, c: Core, acts: seq<Action>)
    requires Wf(c)
    decreases acts
  {
    acts == [] || (Writes(t, p, c, acts[0]) && AllWrite(t, p, StepCore(t, c, acts[0]), acts[1..]))
  }

  /** A property of single cells holds after every run in which whatever is
      printed has it. */
  lemma {:induction false} RunHolds(t: Tables, p: Cell -> bool, c: Core, acts: seq<Action>)
    requires Blanks(p) && Wf(c) && CellsHold(p, c) && AllWrite(t, p, c, acts)
    ensures CellsHold(p, StepAllCore(t, c, acts))
    decreases acts
  {
    hide CellsHold, Wf, StepCore, Blanks, Writes;
    if acts != [] {
      StepHolds(t, p, c, acts[0]);
      RunHolds(t, p, StepCore(t, c, acts[0]), acts[1..]);
    }
  }
}
