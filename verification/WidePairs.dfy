/** Wide-pair integrity: on every row each lead is followed by its tail and
    each tail preceded by its lead. Which operations keep it, and exactly when
    the three that can break it do. */
module WidePairs {
  import opened VtTypes
  import opened Grid
  import opened ScreenSpec

  predicate Plain(row: Row, k: int) {
    0 <= k < |row| && row[k].attrs < 8
  }

  /** A lead and, right of it, its tail: the same character and rendition. */
  predicate Pair(row: Row, k: int) {
    0 <= k && k + 1 < |row| && row[k].attrs / 8 == 1 && row[k + 1] == row[k].(attrs := row[k].attrs + 8)
  }

  predicate Sound(row: Row, k: int) {
    Plain(row, k) || Pair(row, k) || Pair(row, k - 1)
  }

  ghost predicate Paired(row: Row) {
    forall k :: 0 <= k < |row| ==> Sound(row, k)
  }

  ghost predicate AllPaired(g: Rows) {
    forall r :: 0 <= r < |g| ==> Paired(g[r])
  }

  /** The screen and the one saved behind it. */
  ghost predicate PairsOk(c: Core) {
    AllPaired(c.grid) && (c.savedGrid.Some? ==> AllPaired(c.savedGrid.value))
  }

  /** The three kinds of cell exclude one another. */
  lemma Kinds(row: Row, k: int)
    ensures Plain(row, k) ==> !IsLead(row[k]) && !IsTail(row[k])
    ensures Pair(row, k) ==> IsLead(row[k]) && !IsTail(row[k]) && !IsLead(row[k + 1]) && IsTail(row[k + 1])
  {
    if Pair(row, k) {
      var a := row[k].attrs;
      assert a == 8 + a % 8;
      assert (a + 8) / 8 == 2;
    }
  }

  /** What kind a cell of a paired row is can be read off its two bits. */
  lemma KindOf(row: Row, k: nat)
    requires Paired(row) && k < |row|
    ensures IsLead(row[k]) <==> Pair(row, k)
    ensures IsTail(row[k]) <==> Pair(row, k - 1)
    ensures !IsLead(row[k]) && !IsTail(row[k]) <==> Plain(row, k)
  {
    assert Sound(row, k);
    Kinds(row, k);
    Kinds(row, k - 1);
    hide IsLead, IsTail;
  }

  lemma BlankPaired(cols: nat, bg: Color)
    ensures Paired(BlankRow(cols, bg))
  {
    forall k | 0 <= k < cols ensures Sound(BlankRow(cols, bg), k) {
      assert Plain(BlankRow(cols, bg), k);
    }
  }

  // ---------------------------------------------------------------- smashing

  /** Cell `k` once the cells `lo..hi` are about to be overwritten: blank when
      it is the other half of one of them. */
  function Spared(row: Row, lo: nat, hi: nat, bg: Color, k: nat): Cell
    requires lo < hi <= |row| && k < |row|
  {
    if (k + 1 == lo && IsTail(row[lo])) || (k == hi && IsLead(row[hi - 1])) then Blank(bg) else row[k]
  }

  /** Outside the range smashing blanks exactly the halves whose partners lie
      in it. */
  lemma {:induction false} SmashSpares(row: Row, lo: nat, hi: nat, bg: Color)
    requires Paired(row) && lo < hi <= |row|
    ensures forall k :: 0 <= k < |row| && !(lo <= k < hi) ==>
                          SmashRange(row, lo, hi, bg)[k] == Spared(row, lo, hi, bg, k)
    decreases hi
  {
    var s := SmashRange(row, lo, hi - 1, bg);
    KindOf(row, hi - 1);
    if hi - 1 > lo {
      SmashSpares(row, lo, hi - 1, bg);
      KindOf(row, hi - 2);
    } else {
      assert s == row;
    }
    if hi < |row| {
      KindOf(row, hi);
    }
    Kinds(row, hi - 1);
    Kinds(row, hi - 2);
    hide Paired, IsLead, IsTail;
    BlankKind(bg);
  }

  lemma BlankKind(bg: Color)
    ensures !IsLead(Blank(bg)) && !IsTail(Blank(bg))
  {
  }

  /** What is left outside the range is still paired within itself. */
  lemma SparedSound(row: Row, s: Row, lo: nat, hi: nat, bg: Color, k: nat)
    requires Paired(row) && lo < hi <= |row| && k < |row| && !(lo <= k < hi) && |s| == |row|
    requires forall j :: 0 <= j < |row| && !(lo <= j < hi) ==> s[j] == Spared(row, lo, hi, bg, j)
    ensures Plain(s, k) || (Pair(s, k) && (k + 1 < lo || hi <= k)) || (Pair(s, k - 1) && (k < lo || hi <= k - 1))
  {
    assert Sound(row, k);
    KindOf(row, lo);
    KindOf(row, hi - 1);
    Kinds(row, lo - 1);
    Kinds(row, hi - 1);
    Kinds(row, k);
    Kinds(row, k - 1);
    hide IsLead, IsTail, Paired;
  }

  /** Whatever plain cells or pairs are written over a smashed range, the row
      is paired again. */
  lemma OverwriteSound(row: Row, s: Row, lo: nat, hi: nat, bg: Color, u: Row)
    requires Paired(row) && lo < hi <= |row| && |u| == |row|
    requires s == SmashRange(row, lo, hi, bg)
    requires forall j :: 0 <= j < |row| && !(lo <= j < hi) ==> u[j] == s[j]
    requires forall j :: lo <= j < hi ==> Plain(u, j) || (Pair(u, j) && j + 1 < hi) || (Pair(u, j - 1) && lo < j)
    ensures Paired(u)
  {
    SmashSpares(row, lo, hi, bg);
    forall k | 0 <= k < |u| ensures Sound(u, k) {
      if !(lo <= k < hi) {
        SparedSound(row, u, lo, hi, bg, k);
      }
    }
  }

  lemma EraseSound(row: Row, lo: nat, hi: nat, bg: Color)
    requires Paired(row) && hi <= |row|
    ensures Paired(EraseRow(row, lo, hi, bg))
  {
    if lo < hi {
      var u := EraseRow(row, lo, hi, bg);
      forall j | lo <= j < hi ensures Plain(u, j) {
      }
      OverwriteSound(row, SmashRange(row, lo, hi, bg), lo, hi, bg, u);
    }
  }

  /** Erasing a range of a paired row blanks the range and the halves whose
      partners were in it, and nothing else. */
  lemma EraseBlanks(row: Row, lo: nat, hi: nat, bg: Color, k: nat)
    requires Paired(row) && lo < hi <= |row| && k < |row|
    ensures EraseRow(row, lo, hi, bg)[k]
         == if lo <= k < hi || (Pair(row, k) && lo == k + 1) || (Pair(row, k - 1) && k == hi) then Blank(bg) else row[k]
  {
    hide IsLead, IsTail, Paired, SmashRange, Blank;
    SmashSpares(row, lo, hi, bg);
    KindOf(row, lo);
    KindOf(row, hi - 1);
    EraseIs(row, lo, hi, bg, k);
    hide EraseRow;
  }

  lemma EraseIs(row: Row, lo: nat, hi: nat, bg: Color, k: nat)
    requires lo < hi <= |row| && k < |row|
    ensures EraseRow(row, lo, hi, bg)[k] == if lo <= k < hi then Blank(bg) else SmashRange(row, lo, hi, bg)[k]
  {
    hide SmashRange;
  }

  /** Erasing a flat span of a paired grid blanks exactly the cells whose flat
      index lies in it, and the halves whose partners do. */
  lemma SpanBlanks(g: Rows, cols: nat, from: nat, end: nat, bg: Color, r: nat, k: nat)
    requires AllPaired(g) && Shaped(g, cols, |g|) && r < |g| && k < cols && from < end
    ensures var i := r * cols + k;
            SpanErased(g, cols, from, end, bg)[r][k]
            == (if from <= i < end || (Pair(g[r], k) && from == i + 1) || (Pair(g[r], k - 1) && end == i) then Blank(bg)
                else g[r][k])
  {
    var lo, hi := Clip(from, r, cols), Clip(end, r, cols);
    if lo < hi {
      EraseBlanks(g[r], lo, hi, bg, k);
    }
    hide Paired, EraseRow;
  }

  lemma DeleteSound(row: Row, col: nat, n: nat, bg: Color)
    requires Paired(row) && col + n <= |row|
    ensures Paired(CellsDeleted(row, col, n, bg))
  {
    var s, u := SmashRange(row, col, col + n, bg), CellsDeleted(row, col, n, bg);
    if n == 0 {
      assert u == row;
    } else {
      SmashSpares(row, col, col + n, bg);
      forall k | 0 <= k < |u| ensures Sound(u, k) {
        if k < col {
          SparedSound(row, s, col, col + n, bg, k);
        } else if k < |row| - n {
          SparedSound(row, s, col, col + n, bg, k + n);
        }
      }
    }
  }

  // ---------------------------------------------------------------- printing

  lemma PutIsSmashRange(row: Row, col: nat, width: u16, bg: Color)
    requires 1 <= width <= 2 && col + width <= |row|
    ensures SmashRange(row, col, col + 1, bg) == Smash(row, col, bg)
    ensures SmashRange(row, col, col + 2, bg) == Smash(Smash(row, col, bg), col + 1, bg)
  {
    assert SmashRange(row, col, col, bg) == row;
  }

  /** A fresh cluster replaces whatever it overlaps. */
  lemma PutSound(row: Row, col: nat, width: u16, ch: u32, pen: Pen)
    requires Paired(row) && 1 <= width <= 2 && col + width <= |row|
    ensures Paired(PutRow(row, col, width, ch, pen))
  {
    var u := PutRow(row, col, width, ch, pen);
    PutIsSmashRange(row, col, width, pen.bg);
    var a := Sgr(pen.attrs);
    assert (a + WIDE_LEAD) / 8 == 1;
    if width == 2 {
      assert Pair(u, col);
    } else {
      assert Plain(u, col);
    }
    OverwriteSound(row, SmashRange(row, col, col + width, pen.bg), col, col + width, pen.bg, u);
  }

  /** Widening the cell at `col`: sound unless that cell is itself a tail. */
  lemma ExpandSound(row: Row, col: nat, bg: Color)
    requires Paired(row) && col + 1 < |row|
    ensures Paired(ExpandedRow(row, col, bg)) <==> !IsTail(row[col])
  {
    var s, u := SmashRange(row, col + 1, col + 2, bg), ExpandedRow(row, col, bg);
    PutIsSmashRange(row, col + 1, 1, bg);
    SmashSpares(row, col + 1, col + 2, bg);
    KindOf(row, col);
    WidenedPair(row, col, bg);
    hide ExpandedRow, IsTail, SmashRange;
    if IsTail(row[col]) {
      SplitByLead(row, u, col, bg);
    } else {
      forall k | 0 <= k < |u| ensures Sound(u, k) {
        if k < col || k > col + 1 {
          SparedSound(row, s, col + 1, col + 2, bg, k);
          if k + 1 == col {
            KindOf(row, k);
          }
        }
      }
    }
  }

  /** What widening writes, and what it leaves. */
  lemma WidenedPair(row: Row, col: nat, bg: Color)
    requires col + 1 < |row|
    ensures var u := ExpandedRow(row, col, bg);
            Pair(u, col) && forall k :: 0 <= k < |row| && k != col && k != col + 1 ==> u[k] == Smash(row, col + 1, bg)[k]
  {
    var lead := Smash(row, col + 1, bg)[col];
    assert (Sgr(lead.attrs) + WIDE_LEAD) / 8 == 1;
    hide Smash, Sgr;
  }

  lemma SplitByLead(row: Row, u: Row, col: nat, bg: Color)
    requires Paired(row) && 0 < col && col + 1 < |row| == |u| && IsTail(row[col])
    requires u[col - 1] == row[col - 1] && Pair(u, col)
    ensures !Paired(u)
  {
    KindOf(row, col);
    Kinds(row, col - 1);
    Kinds(u, col);
    if Paired(u) {
      KindOf(u, col - 1);
      Kinds(u, col - 1);
    }
  }

  // ---------------------------------------------------------------- insertion and resizing: no smashing

  /** Inserting `n` blanks at `col` breaks a pair exactly when it opens one or
      pushes one half off the right edge. */
  predicate InsertSplits(row: Row, col: nat, n: nat)
    requires col + n <= |row|
  {
    n > 0 && col < |row| && (IsTail(row[col]) || (col + n < |row| && IsLead(row[|row| - n - 1])))
  }

  lemma InsertSound(row: Row, col: nat, n: nat, bg: Color)
    requires Paired(row) && col + n <= |row|
    ensures Paired(CellsInserted(row, col, n, bg)) <==> !InsertSplits(row, col, n)
  {
    var u := CellsInserted(row, col, n, bg);
    if n == 0 {
      assert u == row;
    } else if InsertSplits(row, col, n) {
      InsertBreaks(row, u, col, n, bg);
    } else {
      KindOf(row, col);
      if col + n < |row| {
        KindOf(row, |row| - n - 1);
      }
      forall k | 0 <= k < |u| ensures Sound(u, k) {
        if k < col {
          assert Sound(row, k);
        } else if k < col + n {
          assert Plain(u, k);
        } else {
          assert Sound(row, k - n);
        }
      }
    }
  }

  lemma InsertBreaks(row: Row, u: Row, col: nat, n: nat, bg: Color)
    requires Paired(row) && col + n <= |row| && InsertSplits(row, col, n) && u == CellsInserted(row, col, n, bg)
    ensures !Paired(u)
  {
    KindOf(row, col);
    BlankKind(bg);
    if Paired(u) {
      if IsTail(row[col]) {
        Kinds(row, col - 1);
        KindOf(u, col - 1);
        Kinds(u, col - 1);
      } else {
        KindOf(u, |u| - 1);
      }
    }
  }

  /** A row cut to `cols` loses the tail of a lead in the last kept column. */
  predicate CutSplits(row: Row, cols: nat) {
    0 < cols < |row| && IsLead(row[cols - 1])
  }

  lemma ResizeRowSound(row: Row, cols: nat)
    requires Paired(row)
    ensures Paired(ResizeRow(row, cols)) <==> !CutSplits(row, cols)
  {
    var u := ResizeRow(row, cols);
    if CutSplits(row, cols) {
      if Paired(u) {
        KindOf(u, cols - 1);
      }
    } else {
      if 0 < cols < |row| {
        KindOf(row, cols - 1);
      }
      forall k | 0 <= k < cols ensures Sound(u, k) {
        if k < |row| {
          assert Sound(row, k);
        } else {
          assert Plain(u, k);
        }
      }
    }
  }

  ghost predicate CutSplitsGrid(g: Rows, cols: nat, rows: nat) {
    exists r :: 0 <= r < rows && r < |g| && CutSplits(g[r], cols)
  }

  lemma ResizeGridSound(g: Rows, cols: nat, rows: nat)
    requires AllPaired(g)
    ensures AllPaired(ResizeRows(g, cols, rows)) <==> !CutSplitsGrid(g, cols, rows)
  {
    var h := ResizeRows(g, cols, rows);
    BlankPaired(cols, Default);
    forall r | 0 <= r < rows && r < |g| ensures Paired(h[r]) <==> !CutSplits(g[r], cols) {
      ResizeRowSound(g[r], cols);
    }
    hide Paired, CutSplits, ResizeRow;
    if CutSplitsGrid(g, cols, rows) {
      var r :| 0 <= r < rows && r < |g| && CutSplits(g[r], cols);
      assert !Paired(h[r]);
    }
  }

  /** Resizing keeps every pair exactly when no kept row, of the screen or of
      the one saved behind it, has a lead in the last kept column. */
  lemma ResizeSound(c: Core, cols: u16, rows: u16)
    requires Wf(c) && PairsOk(c) && cols > 0 && rows > 0
    ensures PairsOk(Resize(c, cols, rows)) <==>
            !(CutSplitsGrid(c.grid, cols, rows) || (c.savedGrid.Some? && CutSplitsGrid(c.savedGrid.value, cols, rows)))
  {
    ResizeGridSound(c.grid, cols, rows);
    if c.savedGrid.Some? {
      ResizeGridSound(c.savedGrid.value, cols, rows);
    }
    hide AllPaired, CutSplitsGrid, ResizeRows, GridsOk;
  }

  // ---------------------------------------------------------------- every operation of the screen

  lemma RowReplaced(g: Rows, r: nat, row: Row)
    requires AllPaired(g) && r < |g|
    ensures AllPaired(g[r := row]) <==> Paired(row)
  {
    hide Paired;
    var h := g[r := row];
    assert h[r] == row;
  }

  lemma LinesSound(g: Rows, first: nat, last: nat, n: nat, cols: nat, bg: Color)
    requires AllPaired(g) && first <= last < |g| && n <= last + 1 - first
    ensures AllPaired(LinesDeleted(g, first, last, n, BlankRow(cols, bg)))
    ensures AllPaired(LinesInserted(g, first, last, n, BlankRow(cols, bg)))
  {
    BlankPaired(cols, bg);
    hide Paired;
  }

  lemma ScrollSound(c: Core)
    requires Wf(c) && PairsOk(c)
    ensures PairsOk(ScrollUp(c)) && PairsOk(ScrollDown(c)) && PairsOk(Index(c)) && PairsOk(ReverseIndex(c))
  {
    LinesSound(c.grid, c.scrollTop, c.scrollBottom, 1, c.cols, c.pen.bg);
    hide AllPaired, LinesDeleted, LinesInserted, GridsOk;
  }

  lemma {:induction false} ScrollTimesSound(c: Core, n: nat)
    requires Wf(c) && PairsOk(c)
    ensures PairsOk(ScrollUpTimes(c, n)) && PairsOk(ScrollDownTimes(c, n))
  {
    if n > 0 {
      ScrollTimesSound(c, n - 1);
      ScrollSound(ScrollUpTimes(c, n - 1));
      ScrollSound(ScrollDownTimes(c, n - 1));
    }
    hide PairsOk, Wf, ScrollUp, ScrollDown;
  }

  lemma SpanSound(c: Core, from: nat, to: nat)
    requires Wf(c) && PairsOk(c)
    ensures PairsOk(EraseCore(c, from, to))
  {
    var h := EraseCore(c, from, to).grid;
    forall r | 0 <= r < |h| ensures Paired(h[r]) {
      EraseSound(c.grid[r], Clip(from, r, c.cols), Clip(to, r, c.cols), c.pen.bg);
    }
  }

  /** ICH at the cursor. */
  predicate IchSplits(c: Core, n: u16)
    requires Wf(c)
  {
    InsertSplits(c.grid[c.cursorRow], c.cursorCol, Min(n, c.cols - c.cursorCol))
  }

  lemma CellsSound(c: Core, n: u16)
    requires Wf(c) && PairsOk(c)
    ensures PairsOk(DeleteCellsCore(c, n))
    ensures PairsOk(InsertCellsCore(c, n)) <==> !IchSplits(c, n)
  {
    var row, k := c.grid[c.cursorRow], Min(n, c.cols - c.cursorCol);
    DeleteSound(row, c.cursorCol, k, c.pen.bg);
    InsertSound(row, c.cursorCol, k, c.pen.bg);
    RowReplaced(c.grid, c.cursorRow, CellsDeleted(row, c.cursorCol, k, c.pen.bg));
    RowReplaced(c.grid, c.cursorRow, CellsInserted(row, c.cursorCol, k, c.pen.bg));
    hide AllPaired, Paired, InsertSplits, CellsInserted, CellsDeleted, GridsOk;
  }

  lemma LineEditsSound(c: Core, n: u16)
    requires Wf(c) && PairsOk(c)
    ensures PairsOk(InsertLinesCore(c, n)) && PairsOk(DeleteLinesCore(c, n))
  {
    if InRegion(c) {
      LinesSound(c.grid, c.cursorRow, c.scrollBottom, LineCount(c, n), c.cols, c.pen.bg);
    }
    hide AllPaired, LinesDeleted, LinesInserted, GridsOk;
  }

  lemma EditSound(c: Core, params: seq<u16>, fin: u8)
    requires Wf(c) && PairsOk(c) && IsEdit(fin)
    ensures PairsOk(EditCore(c, params, fin)) <==> !(fin == 0x40 && IchSplits(c, CsiN(params, 0, 1)))
  {
    var n := CsiN(params, 0, 1);
    hide PairsOk, Wf, EraseCore, InsertLinesCore, DeleteLinesCore, InsertCellsCore, DeleteCellsCore, IchSplits;
    hide ScrollUpTimes, ScrollDownTimes, DisplaySpan, LineSpan, CharSpan;
    if fin == 0x4a {
      var s := DisplaySpan(c, CsiN(params, 0, 0));
      SpanSound(c, s.0, s.1);
    } else if fin == 0x4b {
      var s := LineSpan(c, CsiN(params, 0, 0));
      SpanSound(c, s.0, s.1);
    } else if fin == 0x58 {
      var s := CharSpan(c, n);
      SpanSound(c, s.0, s.1);
    } else if fin == 0x4c || fin == 0x4d {
      LineEditsSound(c, n);
    } else if fin == 0x40 || fin == 0x50 {
      CellsSound(c, n);
    } else {
      ScrollTimesSound(c, n);
    }
  }

  /** An operation that moves no cell. */
  lemma SameCells(c: Core, d: Core)
    requires PairsOk(c) && d.grid == c.grid && d.savedGrid == c.savedGrid
    ensures PairsOk(d)
  {
  }

  lemma PlaceSound(c: Core, ch: u32, width: u16)
    requires Wf(c) && PairsOk(c) && 1 <= width <= 2
    ensures PairsOk(Place(c, ch, width))
  {
    if c.cursorCol + width <= c.cols {
      PutSound(c.grid[c.cursorRow], c.cursorCol, width, ch, c.pen);
      RowReplaced(c.grid, c.cursorRow, PutRow(c.grid[c.cursorRow], c.cursorCol, width, ch, c.pen));
    }
    hide AllPaired, PutRow, GridsOk;
  }

  lemma WrapSound(c: Core, width: u16)
    requires Wf(c) && PairsOk(c)
    ensures PairsOk(WrapIfNeeded(c, width))
  {
    var d := c.(pendingWrap := false, cursorCol := 0);
    SameCells(c, d);
    SameCells(c, c.(pendingWrap := false));
    ScrollSound(d);
    hide PairsOk, Index, GridsOk;
  }

  lemma ExpandClusterSound(c: Core)
    requires Wf(c) && PairsOk(c)
    ensures PairsOk(Expand(c)) <==> !(Expands(c) && IsTail(c.grid[c.cluster.value.row][c.cluster.value.col]))
  {
    if Expands(c) {
      var cl := c.cluster.value;
      ExpandSound(c.grid[cl.row], cl.col, c.pen.bg);
      RowReplaced(c.grid, cl.row, ExpandedRow(c.grid[cl.row], cl.col, c.pen.bg));
    }
    hide AllPaired, ExpandedRow, GridsOk, Paired, IsTail;
  }

  /** A regional indicator joins an open cluster whose cell has become the
      tail of another pair. */
  predicate RiSplits(t: Tables, c: Core, ch: u32)
    requires Wf(c)
  {
    && ShouldAppend(t, c, ch) && IsRegionalIndicator(ch) && Expands(c)
    && IsTail(c.grid[c.cluster.value.row][c.cluster.value.col])
  }

  lemma WriteSound(t: Tables, c: Core, ch: u32)
    requires Wf(c) && PairsOk(c)
    ensures PairsOk(WriteChar(t, c, ch)) <==> !RiSplits(t, c, ch)
  {
    hide PairsOk, GridsOk, IsTail;
    if ShouldAppend(t, c, ch) {
      var a := Append(c, ch);
      SameCells(c, a);
      ExpandClusterSound(a);
      hide Expand;
    } else {
      var width := ClusterWidth(t, ch);
      WrapSound(c, width);
      PlaceSound(WrapIfNeeded(c, width), ch, width);
      hide WrapIfNeeded, Place;
    }
  }

  lemma AltSound(c: Core, b: bool)
    requires Wf(c) && PairsOk(c)
    ensures PairsOk(EnterAlt(c, b)) && PairsOk(LeaveAlt(c, b))
  {
    BlankPaired(c.cols, c.pen.bg);
    hide Paired, GridsOk;
  }

  lemma {:induction false} PrivateSound(c: Core, params: seq<u16>, n: nat, on: bool)
    requires Wf(c) && PairsOk(c) && n <= |params|
    ensures PairsOk(PrivateModes(c, params, n, on))
  {
    hide PairsOk, Wf, EnterAlt, LeaveAlt;
    if n > 0 {
      PrivateSound(c, params, n - 1, on);
      var d := PrivateModes(c, params, n - 1, on);
      var p := params[n - 1];
      if p == 1047 || p == 1049 {
        AltSound(d, p == 1049);
      } else {
        SameCells(d, PrivateOne(d, p, on));
      }
    }
  }

  lemma ExecuteSound(c: Core, b: u8)
    requires Wf(c) && PairsOk(c)
    ensures PairsOk(ExecuteCore(c, b))
  {
    var s := c.(pendingWrap := false, cluster := None);
    SameCells(c, s);
    ScrollSound(s);
    hide PairsOk, GridsOk, Index;
    if !(0x0a <= b <= 0x0c) {
      SameCells(c, ExecuteCore(c, b));
    }
  }

  lemma IndexAtSound(c: Core, col: u16)
    requires Wf(c) && PairsOk(c) && col < c.cols
    ensures PairsOk(Index(c.(pendingWrap := false, cursorCol := col)))
    ensures PairsOk(ReverseIndex(c.(pendingWrap := false)))
  {
    SameCells(c, c.(pendingWrap := false, cursorCol := col));
    SameCells(c, c.(pendingWrap := false));
    ScrollSound(c.(pendingWrap := false, cursorCol := col));
    ScrollSound(c.(pendingWrap := false));
    hide PairsOk, GridsOk, Index, ReverseIndex;
  }

  lemma EscSound(c: Core, inters: seq<u8>, b: u8)
    requires Wf(c) && PairsOk(c)
    ensures PairsOk(EscCore(c, inters, b))
  {
    IndexAtSound(c, c.cursorCol);
    IndexAtSound(c, 0);
    assert c.(pendingWrap := false) == c.(pendingWrap := false, cursorCol := c.cursorCol);
    hide PairsOk, Wf, Index, ReverseIndex;
    if b != 0x44 && b != 0x45 && b != 0x4d {
      EscSame(c, inters, b);
      SameCells(c, EscCore(c, inters, b));
    }
    hide Restore, Capture;
  }

  /** The escape sequences that do not scroll. */
  lemma EscSame(c: Core, inters: seq<u8>, b: u8)
    requires Wf(c) && b != 0x44 && b != 0x45 && b != 0x4d
    ensures var d := EscCore(c, inters, b);
            d.grid == c.grid && d.savedGrid == c.savedGrid && d.cluster == c.cluster && d.rows == c.rows && d.cols == c.cols
  {
    hide Wf, Index, ReverseIndex;
  }

  lemma CsiSound(c: Core, params: seq<u16>, fin: u8)
    requires Wf(c) && PairsOk(c)
    ensures PairsOk(CsiCore(c, params, fin)) <==> !(fin == 0x40 && IchSplits(c, CsiN(params, 0, 1)))
  {
    hide PairsOk, GridsOk, EditCore, IchSplits;
    if IsEdit(fin) {
      EditSound(c, params, fin);
    } else {
      SameCells(c, CsiCore(c, params, fin));
    }
  }

  // ---------------------------------------------------------------- one action, any run of actions

  /** The two actions that can leave half a pair, and when they do. */
  predicate Splits(t: Tables, c: Core, a: Action)
    requires Wf(c)
  {
    match a
    case Print(ch) => RiSplits(t, c, ch)
    case Csi(params, inters, ignore, fin) =>
      !ignore && inters == [] && fin == 0x40 && IchSplits(c, CsiN(params, 0, 1))
    case _ => false
  }

  /** Every action keeps every pair, except exactly where `Splits` says. */
  lemma StepSound(t: Tables, c: Core, a: Action)
    requires Wf(c) && PairsOk(c)
    ensures PairsOk(StepCore(t, c, a)) <==> !Splits(t, c, a)
  {
    hide PairsOk, Wf, WriteChar, ExecuteCore, EscCore, CsiCore, PrivateModes, RiSplits, IchSplits;
    match a
    case Print(ch) => WriteSound(t, c, ch);
    case Execute(b) => ExecuteSound(c, b);
    case Esc(inters, b) => EscSound(c, inters, b);
    case Csi(params, inters, ignore, fin) =>
      PrivateSound(c, params, |params|, fin == 0x68);
      CsiSound(c, params, fin);
    case Osc(_) =>
  }

  /** No action of the run meets the state in which it splits a pair. */
  ghost predicate NeverSplits(t: Tables, c: Core, acts: seq<Action>)
    requires Wf(c)
    decreases acts
  {
    acts == [] || (!Splits(t, c, acts[0]) && NeverSplits(t, StepCore(t, c, acts[0]), acts[1..]))
  }

  lemma {:induction false} RunSound(t: Tables, c: Core, acts: seq<Action>)
    requires Wf(c) && PairsOk(c) && NeverSplits(t, c, acts)
    ensures PairsOk(StepAllCore(t, c, acts))
    decreases acts
  {
    hide PairsOk, Wf, StepCore, Splits;
    if acts != [] {
      StepSound(t, c, acts[0]);
      RunSound(t, StepCore(t, c, acts[0]), acts[1..]);
    }
  }

  /** Anything but a regional indicator and an insertion of cells. */
  predicate Harmless(a: Action) {
    !(a.Print? && IsRegionalIndicator(a.c)) && !(a.Csi? && a.fin == 0x40)
  }

  lemma {:induction false} HarmlessSound(t: Tables, c: Core, acts: seq<Action>)
    requires Wf(c) && PairsOk(c) && forall i :: 0 <= i < |acts| ==> Harmless(acts[i])
    ensures PairsOk(StepAllCore(t, c, acts))
    decreases acts
  {
    hide PairsOk, Wf, StepCore, IchSplits;
    if acts != [] {
      StepSound(t, c, acts[0]);
      HarmlessSound(t, StepCore(t, c, acts[0]), acts[1..]);
    }
  }

  lemma NewSound(t: Tables, cols: u16, rows: u16)
    requires cols > 0 && rows > 0 && WfPalette(t.palette)
    ensures PairsOk(NewCore(t, cols, rows))
  {
    BlankPaired(cols, Default);
  }

  // ---------------------------------------------------------------- every exception happens

  function Move(row: u16, col: u16): Action {
    Csi([row, col], [], false, 0x48)
  }

  /** A wide character that is no continuer. */
  predicate WideChar(t: Tables, ch: u32) {
    t.wide(ch) && !IsContinuer(t, ch) && !IsRegionalIndicator(ch)
  }

  /** A wide character printed where it fits on blanks. */
  lemma PrintWide(t: Tables, c: Core, ch: u32)
    requires Wf(c) && WideChar(t, ch) && c.cluster == None && !c.pendingWrap && c.cursorCol + 2 <= c.cols
    ensures var d := StepCore(t, c, Print(ch));
            IsTail(d.grid[c.cursorRow][c.cursorCol + 1]) && d.cols == c.cols && d.rows == c.rows
            && d.scrollTop == c.scrollTop && d.scrollBottom == c.scrollBottom && d.autowrap == c.autowrap
  {
    assert WrapIfNeeded(c, 2) == c;
    assert (Sgr(c.pen.attrs) + WIDE_TAIL) / 16 == 1;
    hide GridsOk, Smash;
  }

  /** Print a wide character, move onto its tail, insert a blank: on every
      screen of four columns or more the pair is split. */
  lemma IchSplitsOne(t: Tables, cols: u16, rows: u16, ch: u32)
    requires cols >= 4 && rows > 0 && WfPalette(t.palette) && WideChar(t, ch)
    ensures !PairsOk(StepAllCore(t, NewCore(t, cols, rows), [Print(ch)] + [Move(1, 2)] + [Csi([], [], false, 0x40)]))
  {
    hide PairsOk, GridsOk, StepCore, IsTail, StepAllCore, IchSplits;
    var ich := Csi([], [], false, 0x40);
    var c0 := NewCore(t, cols, rows);
    var c1 := StepCore(t, c0, Print(ch));
    var c2 := StepCore(t, c1, Move(1, 2));
    NewSound(t, cols, rows);
    PrintWide(t, c0, ch);
    StepSound(t, c0, Print(ch));
    StepSound(t, c1, Move(1, 2));
    MoveStep(t, c1, 1, 2);
    IchOnTail(c2);
    StepSound(t, c2, ich);
    StepAllCoreAppend(t, c0, [Print(ch)] + [Move(1, 2)], [ich]);
    StepAllCoreAppend(t, c0, [Print(ch)], [Move(1, 2)]);
    StepOneCore(t, c0, Print(ch));
    StepOneCore(t, c1, Move(1, 2));
    StepOneCore(t, c2, ich);
  }

  /** A blank inserted on a tail. */
  lemma IchOnTail(c: Core)
    requires Wf(c) && IsTail(c.grid[c.cursorRow][c.cursorCol])
    ensures IchSplits(c, CsiN([], 0, 1))
  {
    hide IsTail, IsLead;
  }

  /** Print a wide character, resize to one column: its lead is left alone. */
  lemma ResizeSplitsOne(t: Tables, cols: u16, rows: u16, ch: u32, height: u16)
    requires cols >= 2 && rows > 0 && height > 0 && WfPalette(t.palette) && WideChar(t, ch)
    ensures !PairsOk(Resize(StepAllCore(t, NewCore(t, cols, rows), [Print(ch)]), 1, height))
  {
    var c0 := NewCore(t, cols, rows);
    var c1 := StepCore(t, c0, Print(ch));
    NewSound(t, cols, rows);
    PrintWide(t, c0, ch);
    StepSound(t, c0, Print(ch));
    StepOneCore(t, c0, Print(ch));
    ResizeSound(c1, 1, height);
    LeadOfTail(c1.grid, 0, 0);
    hide PairsOk, GridsOk, WriteChar, IsTail, IsLead, StepAllCore, Resize;
    assert !Splits(t, c0, Print(ch));
    assert CutSplits(c1.grid[0], 1);
  }

  lemma LeadOfTail(g: Rows, r: nat, k: nat)
    requires AllPaired(g) && r < |g| && k + 1 < |g[r]| && IsTail(g[r][k + 1])
    ensures IsLead(g[r][k])
  {
    assert Paired(g[r]);
    KindOf(g[r], k + 1);
    KindOf(g[r], k);
    hide Paired, IsLead, IsTail;
  }

  /** A narrow regional indicator printed where it fits opens a cluster. */
  lemma PrintRi(t: Tables, c: Core, ri: u32)
    requires Wf(c) && NarrowRi(t, ri) && c.cluster == None && !c.pendingWrap && c.cursorCol + 1 < c.cols
    ensures var d := StepCore(t, c, Print(ri));
            d.cluster == Some(OpenCluster(c.cursorRow, c.cursorCol, 1, false, true, 1))
            && d.cols == c.cols && d.rows == c.rows && d.cursorRow == c.cursorRow
            && d.scrollTop == c.scrollTop && d.scrollBottom == c.scrollBottom
            && forall r :: 0 <= r < c.rows && r != c.cursorRow ==> d.grid[r] == c.grid[r]
  {
    assert WrapIfNeeded(c, 1) == c;
    hide GridsOk, PutRow;
  }

  predicate NarrowRi(t: Tables, ri: u32) {
    IsRegionalIndicator(ri) && !t.wide(ri) && !t.mark(ri)
  }

  lemma ScrollOne(t: Tables, c: Core)
    requires Wf(c) && c.scrollTop == 0 && c.scrollBottom == c.rows - 1 && c.rows >= 2
    ensures var d := StepCore(t, c, Csi([1], [], false, 0x53));
            d == c.(grid := d.grid) && d.grid[0] == c.grid[1]
  {
    ScrollUpOnce(t, c);
    hide StepCore, LinesDeleted;
    FirstRowGone(c.grid, c.scrollBottom, BlankLine(c));
  }

  lemma ScrollUpOnce(t: Tables, c: Core)
    requires Wf(c)
    ensures StepCore(t, c, Csi([1], [], false, 0x53)) == ScrollUp(c)
  {
    hide Wf, ScrollUp;
    assert CsiN([1], 0, 1) == 1;
    assert ScrollUpTimes(c, 1) == ScrollUp(ScrollUpTimes(c, 0)) == ScrollUp(c);
  }

  lemma FirstRowGone(g: Rows, last: nat, blank: Row)
    requires 0 < last < |g|
    ensures LinesDeleted(g, 0, last, 1, blank)[0] == g[1]
  {
  }

  const SCROLL_ONE := Csi([1], [], false, 0x53)

  /** CUP, away from the cluster. */
  lemma MoveStep(t: Tables, c: Core, row: u16, col: u16)
    requires Wf(c) && 1 <= row <= c.rows && 1 <= col <= c.cols
    ensures StepCore(t, c, Move(row, col)) == SetCursor(c, row - 1, col - 1)
  {
    hide GridsOk, SetCursor;
  }

  /** A wide pair on the second row, its tail in the second column. */
  lemma PairBelow(t: Tables, c0: Core, ch: u32)
    requires Wf(c0) && PairsOk(c0) && c0.cols >= 3 && c0.rows >= 2 && c0.scrollTop == 0 && c0.scrollBottom == c0.rows - 1
    requires WideChar(t, ch)
    ensures var c2 := StepCore(t, StepCore(t, c0, Move(2, 1)), Print(ch));
            PairsOk(c2) && IsTail(c2.grid[1][1]) && c2.cols == c0.cols && c2.rows == c0.rows
            && c2.scrollTop == 0 && c2.scrollBottom == c2.rows - 1
  {
    var c1 := StepCore(t, c0, Move(2, 1));
    MoveStep(t, c0, 2, 1);
    StepSound(t, c0, Move(2, 1));
    StepSound(t, c1, Print(ch));
    hide PairsOk, GridsOk, IsTail, StepCore, IchSplits;
    PrintWide(t, c1, ch);
  }

  /** One indicator on the first row, left open above that pair. */
  lemma ClusterAbove(t: Tables, c2: Core, ri: u32)
    requires Wf(c2) && PairsOk(c2) && c2.cols >= 3 && c2.rows >= 2 && c2.scrollTop == 0 && c2.scrollBottom == c2.rows - 1
    requires NarrowRi(t, ri) && IsTail(c2.grid[1][1])
    ensures var c4 := StepCore(t, StepCore(t, c2, Move(1, 2)), Print(ri));
            PairsOk(c4) && IsTail(c4.grid[1][1]) && c4.cols == c2.cols && c4.rows == c2.rows && c4.cursorRow == 0
            && c4.scrollTop == 0 && c4.scrollBottom == c4.rows - 1
            && c4.cluster == Some(OpenCluster(0, 1, 1, false, true, 1))
  {
    var c3 := StepCore(t, c2, Move(1, 2));
    MoveStep(t, c2, 1, 2);
    StepSound(t, c2, Move(1, 2));
    StepSound(t, c3, Print(ri));
    hide PairsOk, GridsOk, IsTail, StepCore, IchSplits;
    PrintRi(t, c3, ri);
  }

  /** Scrolled up, the tail lies under the open cluster. */
  lemma TailUnderCluster(t: Tables, c4: Core, ri: u32)
    requires Wf(c4) && PairsOk(c4) && c4.cols >= 3 && c4.rows >= 2 && c4.scrollTop == 0 && c4.scrollBottom == c4.rows - 1
    requires NarrowRi(t, ri) && IsTail(c4.grid[1][1]) && c4.cursorRow == 0
    requires c4.cluster == Some(OpenCluster(0, 1, 1, false, true, 1))
    ensures var c5 := StepCore(t, c4, SCROLL_ONE);
            PairsOk(c5) && Splits(t, c5, Print(ri))
  {
    StepSound(t, c4, SCROLL_ONE);
    ScrollOne(t, c4);
    hide PairsOk, GridsOk, IsTail, StepCore, IchSplits;
  }

  lemma StepSix(t: Tables, c: Core, a0: Action, a1: Action, a2: Action, a3: Action, a4: Action, a5: Action)
    requires Wf(c)
    ensures StepAllCore(t, c, [a0, a1, a2, a3, a4, a5])
         == StepCore(t, StepCore(t, StepCore(t, StepCore(t, StepCore(t, StepCore(t, c, a0), a1), a2), a3), a4), a5)
  {
    hide Wf, StepCore;
    var c1 := StepCore(t, c, a0);
    var c2 := StepCore(t, c1, a1);
    var c3 := StepCore(t, c2, a2);
    var c4 := StepCore(t, c3, a3);
    var c5 := StepCore(t, c4, a4);
    assert [a0, a1, a2, a3, a4, a5][1..] == [a1, a2, a3, a4, a5];
    assert [a1, a2, a3, a4, a5][1..] == [a2, a3, a4, a5];
    assert [a2, a3, a4, a5][1..] == [a3, a4, a5];
    assert [a3, a4, a5][1..] == [a4, a5];
    assert [a4, a5][1..] == [a5];
    StepOneCore(t, c5, a5);
    assert StepAllCore(t, c4, [a4, a5]) == StepAllCore(t, c5, [a5]);
    assert StepAllCore(t, c3, [a3, a4, a5]) == StepAllCore(t, c4, [a4, a5]);
    assert StepAllCore(t, c2, [a2, a3, a4, a5]) == StepAllCore(t, c3, [a3, a4, a5]);
    assert StepAllCore(t, c1, [a1, a2, a3, a4, a5]) == StepAllCore(t, c2, [a2, a3, a4, a5]);
  }

  /** Open a cluster with one regional indicator, scroll a wide pair up under
      it, print the second indicator: the pair is split. */
  lemma RiSplitsOne(t: Tables, cols: u16, rows: u16, ch: u32, ri: u32)
    requires cols >= 3 && rows >= 2 && WfPalette(t.palette) && WideChar(t, ch) && NarrowRi(t, ri)
    ensures !PairsOk(StepAllCore(t, NewCore(t, cols, rows),
                                 [Move(2, 1), Print(ch), Move(1, 2), Print(ri), SCROLL_ONE, Print(ri)]))
  {
    var c0 := NewCore(t, cols, rows);
    NewSound(t, cols, rows);
    hide PairsOk, Wf, StepCore, Splits, IsTail, NarrowRi, WideChar;
    PairBelow(t, c0, ch);
    var c2 := StepCore(t, StepCore(t, c0, Move(2, 1)), Print(ch));
    ClusterAbove(t, c2, ri);
    var c4 := StepCore(t, StepCore(t, c2, Move(1, 2)), Print(ri));
    TailUnderCluster(t, c4, ri);
    StepSound(t, StepCore(t, c4, SCROLL_ONE), Print(ri));
    StepSix(t, c0, Move(2, 1), Print(ch), Move(1, 2), Print(ri), SCROLL_ONE, Print(ri));
  }
}
