/** Where every control that moves the cursor leaves it, in plain arithmetic,
    and when it scrolls. */
module CursorLaws {
  import opened VtTypes
  import opened Grid
  import opened Shifts
  import opened ScreenSpec
  import opened PrintLaws

  /** Parameter `i`; absent or 0 it is 1. */
  function Arg(params: seq<u16>, i: nat): (n: int)
    ensures n >= 1
  {
    if i < |params| && params[i] > 0 then params[i] else 1
  }

  function Control(fin: u8, params: seq<u16>): Action {
    Csi(params, [], false, fin)
  }

  /** The cursor elsewhere, no wrap pending and no cluster open. */
  function CursorAt(c: Core, row: u16, col: u16): Core {
    c.(cursorRow := row, cursorCol := col, pendingWrap := false, cluster := None)
  }

  /** CUU, CUD, CUF, CUB, CNL, CPL, CHA, VPA, and CUP and HVP alike: how far,
      and never off the screen. */
  lemma MovesLead(t: Tables, c: Core, params: seq<u16>, fin: u8)
    requires Wf(c) && fin in {0x41, 0x42, 0x43, 0x44, 0x45, 0x46, 0x47, 0x64, 0x48, 0x66}
    ensures var row, col, right, bottom := c.cursorRow, c.cursorCol, c.cols - 1, c.rows - 1;
            var n, m := Arg(params, 0), Arg(params, 1);
            var there := if fin == 0x41 then (Max(0, row - n), col)
                         else if fin == 0x42 then (Min(bottom, row + n), col)
                         else if fin == 0x43 then (row, Min(right, col + n))
                         else if fin == 0x44 then (row, Max(0, col - n))
                         else if fin == 0x45 then (Min(bottom, row + n), 0)
                         else if fin == 0x46 then (Max(0, row - n), 0)
                         else if fin == 0x47 then (row, Min(right, n - 1))
                         else if fin == 0x64 then (Min(bottom, n - 1), col)
                         else (Min(bottom, n - 1), Min(right, m - 1));
            StepCore(t, c, Control(fin, params)) == CursorAt(c, there.0, there.1)
  {
    MoveIs(t, c, params, fin);
    hide StepCore, GridsOk;
  }

  function MovedBy(c: Core, params: seq<u16>, fin: u8): Core
    requires Wf(c) && IsMove(fin)
  {
    var to := MoveTo(c.cursorRow, c.cursorCol, params, fin);
    CursorAt(c, Min(to.0, c.rows - 1), Min(to.1, c.cols - 1))
  }

  lemma MoveIs(t: Tables, c: Core, params: seq<u16>, fin: u8)
    requires Wf(c) && IsMove(fin)
    ensures StepCore(t, c, Control(fin, params)) == MovedBy(c, params, fin)
  {
    hide GridsOk, MoveTo;
  }

  /** One row up, or at the top margin and above it, the region one down. */
  function PrevLine(c: Core): (d: Core)
    requires Wf(c)
    ensures Wf(d)
  {
    if c.cursorRow > c.scrollTop then c.(cursorRow := c.cursorRow - 1)
    else
      RowsDownShaped(c, 1);
      c.(grid := RowsDown(c.grid, c.scrollTop, c.scrollBottom, 1, BlankRow(c.cols, c.pen.bg)))
  }

  lemma RowsDownShaped(c: Core, n: nat)
    requires Wf(c)
    ensures GridsOk(RowsDown(c.grid, c.scrollTop, c.scrollBottom, n, BlankRow(c.cols, c.pen.bg)),
                    c.savedGrid, c.cols, c.rows)
  {
    var g := c.grid;
    assert forall r :: 0 <= r < |g| ==> |g[r]| == c.cols;
  }

  lemma ReverseIsPrevLine(c: Core)
    requires Wf(c)
    ensures ReverseIndex(c) == PrevLine(c)
  {
    InsertedGoDown(c.grid, c.scrollTop, c.scrollBottom, 1, BlankRow(c.cols, c.pen.bg));
    hide LinesInserted, RowsDown, GridsOk;
  }

  /** BS, HT, LF, VT, FF, CR, and every other control character, which does
      nothing. */
  lemma ControlsLead(t: Tables, c: Core, b: u8)
    requires Wf(c)
    ensures var d, here := StepCore(t, c, Execute(b)), c.(pendingWrap := false, cluster := None);
            && (b == 0x08 ==> d == here.(cursorCol := Max(0, c.cursorCol - 1)))
            && (b == 0x09 && c.cursorCol < 65528 ==> d == here.(cursorCol := Min(NextStop(c), c.cols - 1)))
            && (b in {0x0a, 0x0b, 0x0c} ==> d == NextLine(here))
            && (b == 0x0d ==> d == here.(cursorCol := 0))
            && (b !in {0x08, 0x09, 0x0a, 0x0b, 0x0c, 0x0d} ==> d == c)
  {
    IndexIsNextLine(c.(pendingWrap := false, cluster := None));
    hide Index, NextLine, GridsOk, NextTab, NextStop;
    if b == 0x09 && c.cursorCol < 65528 {
      TabStops(c);
    }
  }

  lemma TabStops(c: Core)
    requires c.cursorCol < 65528
    ensures NextTab(c.cursorCol) == NextStop(c)
  {
  }

  /** The next column that is a multiple of eight. */
  function NextStop(c: Core): (col: int)
    ensures c.cursorCol < col <= c.cursorCol + 8 && col % 8 == 0
  {
    c.cursorCol + 8 - c.cursorCol % 8
  }

  /** IND, NEL, RI; the keypad modes, which take no intermediates; and every
      escape sequence besides these and DECSC and DECRC, which does nothing. */
  lemma EscapesLead(t: Tables, c: Core, inters: seq<u8>, b: u8)
    requires Wf(c)
    ensures var d, here := StepCore(t, c, Esc(inters, b)), c.(pendingWrap := false);
            && (b == 0x44 ==> d == NextLine(here))
            && (b == 0x45 ==> d == NextLine(here.(cursorCol := 0)))
            && (b == 0x4d ==> d == PrevLine(here))
            && (b == 0x3d || b == 0x3e ==>
                  d == c.(modes := c.modes.(appKeypad := if inters == [] then b == 0x3d else c.modes.appKeypad)))
            && (b !in {0x37, 0x38, 0x44, 0x45, 0x4d, 0x3d, 0x3e} ==> d == c)
  {
    IndexIsNextLine(c.(pendingWrap := false));
    IndexIsNextLine(c.(pendingWrap := false, cursorCol := 0));
    ReverseIsPrevLine(c.(pendingWrap := false));
    hide Index, NextLine, ReverseIndex, PrevLine, GridsOk;
  }

  /** DECSC takes the cursor, its pending wrap and the pen; DECRC puts back
      what was taken, on the screen, and does nothing before. */
  lemma SavingLeads(t: Tables, c: Core, inters: seq<u8>)
    requires Wf(c)
    ensures StepCore(t, c, Esc(inters, 0x37))
         == c.(savedCursor := Some(SavedCursor(c.cursorCol, c.cursorRow, c.pendingWrap, c.pen)))
    ensures (StepCore(t, c, Esc(inters, 0x38))
             == match c.savedCursor
                case None => c
                case Some(s) => c.(cursorCol := Min(s.col, c.cols - 1), cursorRow := Min(s.row, c.rows - 1),
                                   pendingWrap := s.pendingWrap, pen := s.pen))
  {
    hide GridsOk;
  }

  /** DECSTBM: the bottom defaults to the last row; margins that are in order
      and on the screen are taken and the cursor goes home, others are not. */
  lemma MarginsAreSet(t: Tables, c: Core, params: seq<u16>)
    requires Wf(c)
    ensures var top, bottom := Arg(params, 0), if |params| > 1 && params[1] > 0 then params[1] else c.rows;
            (StepCore(t, c, Control(0x72, params))
             == if top < bottom <= c.rows then CursorAt(c, 0, 0).(scrollTop := top - 1, scrollBottom := bottom - 1) else c)
  {
    hide GridsOk;
  }

  // ---------------------------------------------------------------- the log

  /** Whether a line feed scrolls, and whether the row it pushes out is kept. */
  predicate PushesOut(c: Core) {
    c.cursorRow >= c.scrollBottom && c.scrollTop == 0 && !c.inAlt
  }

  /** A line feed, however it comes about, hands the first row of the screen to
      the host exactly when it pushes it off the primary screen's top. */
  lemma FeedsLog(t: Tables, c: Core, f: Fx, a: Action)
    requires Wf(c)
    requires match a
             case Execute(b) => b in {0x0a, 0x0b, 0x0c}
             case Esc(_, b) => b == 0x44 || b == 0x45
             case Print(ch) =>
               !Joins(t, c.cluster, ch) && c.autowrap && (c.pendingWrap || c.cursorCol + WidthOf(t, ch) > c.cols)
             case _ => false
    ensures StepFx(t, c, f, a).scrolledOff == f.scrolledOff + (if PushesOut(c) then [c.grid[0]] else [])
    ensures c.cursorRow >= c.scrollBottom ==> StepFx(t, c, f, a).damage.full
  {
    assert f.scrolledOff + [] == f.scrolledOff;
    hide GridsOk, Index;
  }
}
