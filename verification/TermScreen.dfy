/** The visible grid, cursor and damage, updated in place. Every method says
    what it does as a function of the state before, in `ScreenSpec`. */
module TermScreen {
  import opened VtTypes
  import opened Grid
  import opened Arith
  import opened Flat
  import opened Digits
  import S = ScreenSpec
  import C = Checkpoint
  import R = Repaint
  import F = CsiFidelity

  datatype Cursor = Cursor(col: u16, row: u16, pendingWrap: bool)

  class Screen {
    const t: Tables
    var cols: u16
    var rows: u16
    var cells: array<Cell>
    var cursor: Cursor
    var cursorVisible: bool
    var autowrap: bool
    var damage: S.Damage
    var scrollTop: u16
    var scrollBottom: u16
    var palette: Palette
    var pen: Pen
    var savedCursor: Option<SavedCursor>
    var altCursor: Option<SavedCursor>
    var savedGrid: Option<seq<Cell>>
    var inAlt: bool
    var replies: seq<u8>
    var repliesDropped: u32
    var discardReplies: bool
    var cluster: Option<OpenCluster>
    var truncated: u32
    var modes: Modes
    var scrolledOff: seq<Row>
    /** The rows of `cells`. */
    ghost var grid: Rows

    /** What a checkpoint records. */
    ghost function Core(): S.Core
      reads this
    {
      S.Core(cols, rows, grid, cursor.col, cursor.row, cursorVisible, cursor.pendingWrap, autowrap, scrollTop, scrollBottom,
             palette, pen, savedCursor, altCursor, SavedRows(savedGrid, cols, rows),
             inAlt, cluster, truncated, modes)
    }

    /** What it does not. */
    ghost function Fx(): S.Fx
      reads this
    {
      S.Fx(damage, replies, repliesDropped, discardReplies, scrolledOff)
    }

    /** `grid` is the row view of `cells`. */
    ghost predicate Tied()
      reads this, cells
    {
      && RowView(cells[..], cols, rows, grid)
      && Shaped(grid, cols, rows)
    }

    ghost predicate Valid()
      reads this, cells
    {
      && Tied()
      && (savedGrid.Some? ==> |savedGrid.value| == Area(cols, rows))
      && WfPalette(t.palette)
      && S.Wf(Core())
      && S.WfFx(Fx())
    }

    ghost function Shown(): (d: S.Display)
      requires Valid()
      reads this, cells
      ensures S.Wf(d.core)
    {
      S.Display(Core(), Fx())
    }

    constructor (t: Tables, cols: u16, rows: u16)
      requires cols > 0 && rows > 0 && WfPalette(t.palette)
      ensures Valid() && fresh(cells) && this.t == t
      ensures Core() == S.NewCore(t, cols, rows) && Fx() == S.NEW_FX
    {
      this.t := t;
      this.cols, this.rows := cols, rows;
      cells := new Cell[cols * rows](_ => Blank(Default));
      cursor, cursorVisible, autowrap := Cursor(0, 0, false), true, true;
      damage := S.Damage(true, 0, 0);
      scrollTop, scrollBottom := 0, rows - 1;
      palette, pen := t.palette, PLAIN;
      savedCursor, altCursor, savedGrid, inAlt := None, None, None, false;
      replies, repliesDropped, discardReplies := [], 0, false;
      cluster, truncated, modes, scrolledOff := None, 0, S.NO_MODES, [];
      grid := BlankGrid(cols, rows, Default);
      new;
      RowsOfConst(cols, rows, Default, cells[..]);
    }

    /** A zero dimension is refused. */
    static method Create(t: Tables, cols: u16, rows: u16) returns (made: Option<Screen>)
      requires WfPalette(t.palette)
      ensures made.Some? <==> cols > 0 && rows > 0
      ensures made.Some? ==> fresh(made.value) && fresh(made.value.cells) && made.value.t == t && made.value.Valid()
      ensures made.Some? ==> made.value.Core() == S.NewCore(t, cols, rows) && made.value.Fx() == S.NEW_FX
    {
      if cols == 0 || rows == 0 {
        return None;
      }
      hide Screen.Valid, S.NewCore;
      var s := new Screen(t, cols, rows);
      return Some(s);
    }

    // ---------------------------------------------------------------- the flat buffer

    function Idx(col: nat, row: nat): (i: nat)
      requires col < cols && row < rows
      reads this
      ensures i == row * cols + col < cols * rows
    {
      CellInGrid(col, row, cols, rows);
      row * cols + col
    }

    method GetCell(col: nat, row: nat) returns (c: Cell)
      requires Tied() && col < cols && row < rows
      ensures c == grid[row][col]
    {
      var i := Idx(col, row);
      c := cells[i];
      RowsOfSet(cells[..], cols, rows, col, row, c);
    }

    method SetCell(col: nat, row: nat, v: Cell)
      requires Tied() && col < cols && row < rows
      modifies this`grid, cells
      ensures Tied()
      ensures grid == old(grid)[row := old(grid)[row][col := v]]
    {
      var i := Idx(col, row);
      ghost var s := cells[..];
      RowsOfSet(s, cols, rows, col, row, v);
      cells[i] := v;
      assert cells[..] == s[i := v];
      grid := grid[row := grid[row][col := v]];
    }

    /** `copy_within` on the flat buffer; the ranges may overlap. */
    method CopyWithin(src: nat, len: nat, dst: nat)
      requires src + len <= cells.Length && dst + len <= cells.Length
      modifies cells
      ensures cells[..] == Splice(old(cells[..]), dst, old(cells[..])[src..src + len])
    {
      forall k | 0 <= k < len {
        cells[dst + k] := cells[src + k];
      }
    }

    /** `len` cells from column `from` of row `src` to column `to` of row `dst`. */
    method MoveCells(src: nat, from: nat, dst: nat, to: nat, len: nat)
      requires Tied() && src < rows && dst < rows && from + len <= cols && to + len <= cols
      modifies this`grid, cells
      ensures Tied()
      ensures grid == old(grid)[dst := Splice(old(grid)[dst], to, old(grid)[src][from..from + len])]
    {
      hide RowView, Splice;
      ghost var s, g := cells[..], grid;
      RowViewAt(s, cols, rows, g, src);
      RowViewAt(s, cols, rows, g, dst);
      CopyWithin(src * cols + from, len, dst * cols + to);
      MovedRow(s, cells[..], cols, rows, g, src, from, dst, to, len);
      grid := g[dst := Splice(g[dst], to, g[src][from..from + len])];
    }

    method CopyRow(src: nat, dst: nat)
      requires Tied() && src < rows && dst < rows
      modifies this`grid, cells
      ensures Tied()
      ensures grid == old(grid)[dst := old(grid)[src]]
    {
      hide RowView, S.GridsOk;
      MoveCells(src, 0, dst, 0, cols);
      assert Splice(old(grid)[dst], 0, old(grid)[src][0..0 + cols]) == old(grid)[src];
    }

    method FillCells(row: nat, lo: nat, hi: nat, bg: Color)
      requires Tied() && row < rows && lo <= hi <= cols
      modifies this`grid, cells
      ensures Tied()
      ensures grid == old(grid)[row := FillRow(old(grid)[row], lo, hi, bg)]
    {
      hide RowView, S.GridsOk;
      var i := lo;
      while i < hi
        invariant lo <= i <= hi && Tied()
        invariant grid == old(grid)[row := FillRow(old(grid)[row], lo, i, bg)]
      {
        FillOne(old(grid)[row], lo, i, bg);
        SetCell(i, row, Blank(bg));
        i := i + 1;
      }
    }

    method BlankLines(first: nat, n: nat, bg: Color)
      requires Tied() && first + n <= rows
      modifies this`grid, cells
      ensures Tied()
      ensures forall k :: 0 <= k < rows ==>
                grid[k] == if first <= k < first + n then BlankRow(cols, bg) else old(grid[k])
    {
      hide RowView, BlankRow;
      ghost var g := grid;
      var i := 0;
      while i < n
        invariant 0 <= i <= n && Tied()
        invariant forall k :: 0 <= k < rows ==>
                    grid[k] == if first <= k < first + i then BlankRow(cols, bg) else g[k]
      {
        FillCells(first + i, 0, cols, bg);
        FillAll(g[first + i], bg);
        i := i + 1;
      }
    }

    /** Rows `first..=last` lose `n` rows at the top and gain `n` blank rows. */
    method RemoveRows(first: nat, last: nat, n: nat, bg: Color)
      requires Tied() && first <= last < rows && n <= last + 1 - first
      modifies this`grid, cells
      ensures Tied()
      ensures grid == LinesDeleted(old(grid), first, last, n, BlankRow(cols, bg))
    {
      hide RowView, LinesDeleted, LinesInserted, BlankRow;
      ghost var g := grid;
      var r := first;
      while r + n <= last
        invariant first <= r <= last + 1 - n && Tied()
        invariant forall k {:trigger grid[k]} :: 0 <= k < rows ==> grid[k] == if first <= k < r then g[k + n] else g[k]
      {
        CopyRow(r + n, r);
        r := r + 1;
      }
      BlankLines(r, n, bg);
      LinesDeletedAre(g, grid, first, last, n, BlankRow(cols, bg));
    }

    /** Rows `first..=last` gain `n` blank rows at the top and lose `n` rows. */
    method AddRows(first: nat, last: nat, n: nat, bg: Color)
      requires Tied() && first <= last < rows && n <= last + 1 - first
      modifies this`grid, cells
      ensures Tied()
      ensures grid == LinesInserted(old(grid), first, last, n, BlankRow(cols, bg))
    {
      hide RowView, LinesDeleted, LinesInserted, BlankRow;
      ghost var g := grid;
      var r := last + 1;
      while r > first + n
        invariant first + n <= r <= last + 1 && Tied()
        invariant forall k {:trigger grid[k]} :: 0 <= k < rows ==> grid[k] == if r <= k <= last then g[k - n] else g[k]
      {
        r := r - 1;
        CopyRow(r - n, r);
      }
      BlankLines(first, n, bg);
      LinesInsertedAre(g, grid, first, last, n, BlankRow(cols, bg));
    }

    /** A tied grid keeps the screen's grids in shape. */
    lemma Regrid(g: Rows)
      requires Tied() && S.GridsOk(g, SavedRows(savedGrid, cols, rows), cols, rows)
      ensures S.GridsOk(grid, SavedRows(savedGrid, cols, rows), cols, rows)
    {
      S.NewGridOk(g, grid, SavedRows(savedGrid, cols, rows), cols, rows);
    }

    // ---------------------------------------------------------------- damage

    method DirtyRow(row: u16)
      modifies this`damage
      ensures Fx() == S.Dirty(old(Fx()), row, row)
    {
      if damage.full {
        return;
      }
      if damage.row0 > damage.row1 {
        damage := damage.(row0 := row, row1 := row);
        return;
      }
      if row < damage.row0 {
        damage := damage.(row0 := row);
      }
      if row > damage.row1 {
        damage := damage.(row1 := row);
      }
    }

    method DirtyRows(r0: u16, r1: u16)
      requires r0 <= r1
      modifies this`damage
      ensures Fx() == S.Dirty(old(Fx()), r0, r1)
    {
      var r: int := r0;
      while r <= r1
        invariant r0 <= r <= r1 + 1
        invariant Fx() == if r == r0 then old(Fx()) else S.Dirty(old(Fx()), r0, r - 1)
      {
        DirtyRow(r);
        r := r + 1;
      }
    }

    method FullDamage()
      modifies this`damage
      ensures Fx() == S.FullDamage(old(Fx()))
    {
      damage := damage.(full := true);
    }

    // ---------------------------------------------------------------- scrolling

    method ScrollUp()
      requires Valid()
      modifies this, cells
      ensures Valid() && cells == old(cells)
      ensures Core() == S.ScrollUp(old(Core())) && Fx() == S.ScrollUpFx(old(Core()), old(Fx()))
    {
      hide RowView, LinesDeleted, S.GridsOk;
      if !inAlt && scrollTop == 0 {
        var row := RowCells(scrollTop);
        scrolledOff := scrolledOff + [row];
      }
      RemoveRows(scrollTop, scrollBottom, 1, pen.bg);
      Regrid(old(grid));
      FullDamage();
    }

    method RowCells(r: nat) returns (row: Row)
      requires Tied() && r < rows
      ensures row == grid[r]
    {
      RowInGrid(r, cols, rows);
      row := cells[r * cols..r * cols + cols];
      assert row == cells[..][r * cols..r * cols + cols];
    }

    method ScrollDown()
      requires Valid()
      modifies this, cells
      ensures Valid() && cells == old(cells)
      ensures Core() == S.ScrollDown(old(Core())) && Fx() == S.FullDamage(old(Fx()))
    {
      hide RowView, LinesInserted, S.GridsOk;
      AddRows(scrollTop, scrollBottom, 1, pen.bg);
      Regrid(old(grid));
      FullDamage();
    }

    method Index()
      requires Valid()
      modifies this, cells
      ensures Valid() && cells == old(cells)
      ensures Core() == S.Index(old(Core())) && Fx() == S.IndexFx(old(Core()), old(Fx()))
    {
      if cursor.row < scrollBottom {
        cursor := cursor.(row := cursor.row + 1);
        return;
      }
      ScrollUp();
    }

    method ReverseIndex()
      requires Valid()
      modifies this, cells
      ensures Valid() && cells == old(cells)
      ensures Core() == S.ReverseIndex(old(Core())) && Fx() == S.ReverseIndexFx(old(Core()), old(Fx()))
    {
      if cursor.row > scrollTop {
        cursor := cursor.(row := cursor.row - 1);
        return;
      }
      ScrollDown();
    }

    // ---------------------------------------------------------------- cursor

    method SetCursor(row: u16, col: u16)
      requires Valid()
      modifies this
      ensures Valid() && cells == old(cells)
      ensures Core() == S.SetCursor(old(Core()), row, col) && Fx() == old(Fx())
    {
      hide RowView, S.GridsOk;
      cluster := None;
      cursor := Cursor(Min(col, cols - 1), Min(row, rows - 1), false);
    }

    function CaptureCursor(): SavedCursor
      reads this
    {
      SavedCursor(cursor.col, cursor.row, cursor.pendingWrap, pen)
    }

    method RestoreCursor(saved: SavedCursor)
      requires Valid()
      modifies this
      ensures Valid() && cells == old(cells)
      ensures Core() == S.Restore(old(Core()), saved) && Fx() == old(Fx())
    {
      hide RowView, S.GridsOk;
      cursor := Cursor(Min(saved.col, cols - 1), Min(saved.row, rows - 1), saved.pendingWrap);
      pen := saved.pen;
    }

    // ---------------------------------------------------------------- alternate screen

    method EnterAlt(saveCursor: bool)
      requires Valid()
      modifies this
      ensures Valid() && (cells == old(cells) || fresh(cells))
      ensures Core() == S.EnterAlt(old(Core()), saveCursor) && Fx() == S.FullDamage(old(Fx()))
    {
      hide RowView, RowsOf, S.GridsOk, BlankGrid;
      if !inAlt {
        SaveScreen(saveCursor);
      }
      ClearScreen();
      SetCursor(0, 0);
      FullDamage();
    }

    method SaveScreen(saveCursor: bool)
      requires Valid() && !inAlt
      modifies `altCursor, `savedGrid, `inAlt
      ensures Valid()
      ensures Core() == S.SaveScreen(old(Core()), saveCursor)
    {
      hide RowView, RowsOf, S.GridsOk;
      RowViewRows(cells[..], cols, rows, grid);
      S.BothGridsOk(grid, cols, rows);
      altCursor := if saveCursor then Some(CaptureCursor()) else None;
      savedGrid := Some(cells[..]);
      inAlt := true;
    }

    /** `blank_grid` replaces the visible buffer. */
    method ClearScreen()
      requires Valid()
      modifies `cells, `grid
      ensures Valid() && fresh(cells)
      ensures Core() == old(Core()).(grid := BlankGrid(cols, rows, pen.bg))
    {
      hide RowView, RowsOf, S.GridsOk, BlankGrid;
      var a := BlankCells(cols, rows, pen.bg);
      S.NewGridOk(grid, BlankGrid(cols, rows, pen.bg), Core().savedGrid, cols, rows);
      cells, grid := a, BlankGrid(cols, rows, pen.bg);
    }

    static method BlankCells(cols: u16, rows: u16, bg: Color) returns (a: array<Cell>)
      ensures fresh(a) && RowView(a[..], cols, rows, BlankGrid(cols, rows, bg))
    {
      var n := Area(cols, rows);
      a := new Cell[n](_ => Blank(bg));
      RowsOfConst(cols, rows, bg, a[..]);
    }

    method LeaveAlt(restore: bool)
      requires Valid()
      modifies this
      ensures Valid() && (cells == old(cells) || fresh(cells))
      ensures Core() == S.LeaveAlt(old(Core()), restore) && Fx() == S.LeaveAltFx(old(Core()), old(Fx()))
    {
      hide RowView, RowsOf, S.GridsOk;
      if !inAlt {
        return;
      }
      var c := altCursor;
      TakeSavedGrid();
      if restore && c.Some? {
        RestoreCursor(c.value);
      }
      FullDamage();
    }

    /** `saved_grid.take()` becomes the visible grid. */
    method TakeSavedGrid()
      requires Valid() && inAlt
      modifies `cells, `grid, `savedGrid, `altCursor, `inAlt
      ensures Valid() && fresh(cells)
      ensures Core() == S.TakeSaved(old(Core()))
    {
      hide RowView, RowsOf, S.GridsOk;
      LoadSavedGrid();
      S.SavedGridOk(Core().savedGrid, grid, cols, rows);
      savedGrid := None;
      altCursor := None;
      inAlt := false;
    }

    method LoadSavedGrid()
      requires Valid() && inAlt
      modifies `cells, `grid
      ensures Valid() && fresh(cells)
      ensures Core() == old(Core()).(grid := old(Core()).savedGrid.value)
    {
      hide RowView, RowsOf, S.GridsOk;
      ghost var g := Core().savedGrid.value;
      S.SavedGridOk(Some(g), grid, cols, rows);
      S.NewGridOk(grid, g, Some(g), cols, rows);
      cells := Loaded(savedGrid.value, cols, rows);
      grid := g;
    }

    static method Loaded(s: seq<Cell>, cols: u16, rows: u16) returns (a: array<Cell>)
      requires |s| == Area(cols, rows)
      ensures fresh(a) && RowView(a[..], cols, rows, SavedRows(Some(s), cols, rows).value)
    {
      a := new Cell[|s|](i requires 0 <= i < |s| => s[i]);
      assert a[..] == s;
    }

    method SetScrollRegion(params: seq<u16>)
      requires Valid()
      modifies this
      ensures Valid() && cells == old(cells)
      ensures Core() == S.SetScrollRegion(old(Core()), params) && Fx() == old(Fx())
    {
      hide RowView, S.GridsOk;
      var top, bot := S.CsiN(params, 0, 1), S.CsiN(params, 1, rows);
      if bot > rows || top >= bot {
        return;
      }
      scrollTop := top - 1;
      scrollBottom := bot - 1;
      SetCursor(0, 0);
    }

    method PrivateMode(params: seq<u16>, set_: bool)
      requires Valid()
      modifies this
      ensures Valid() && (cells == old(cells) || fresh(cells))
      ensures Core() == S.PrivateModes(old(Core()), params, |params|, set_)
      ensures Fx() == S.PrivateModesFx(old(Core()), old(Fx()), params, |params|, set_)
    {
      hide RowView, S.GridsOk;
      var i := 0;
      while i < |params|
        invariant 0 <= i <= |params| && Valid() && (cells == old(cells) || fresh(cells))
        invariant Core() == S.PrivateModes(old(Core()), params, i, set_)
        invariant Fx() == S.PrivateModesFx(old(Core()), old(Fx()), params, i, set_)
      {
        PrivateModeOne(params[i], set_);
        i := i + 1;
      }
    }

    method PrivateModeOne(p: u16, set_: bool)
      requires Valid()
      modifies this
      ensures Valid() && (cells == old(cells) || fresh(cells))
      ensures Core() == S.PrivateOne(old(Core()), p, set_)
      ensures Fx() == S.PrivateOneFx(old(Core()), old(Fx()), p, set_)
    {
      hide RowView, S.GridsOk, S.EnterAlt, S.LeaveAlt;
      if p == 1047 || p == 1049 {
        if set_ {
          EnterAlt(p == 1049);
        } else {
          LeaveAlt(p == 1049);
        }
      } else if p == 7 {
        autowrap := set_;
      } else if p == 25 {
        cursorVisible := set_;
      } else {
        SetInputMode(p, set_);
      }
    }

    /** The modes that only the host's key and mouse encoder reads. */
    method SetInputMode(p: u16, set_: bool)
      modifies `modes
      ensures modes == S.InputMode(old(modes), p, set_)
    {
      match p
      case 1 => modes := modes.(appCursorKeys := set_);
      case 2004 => modes := modes.(bracketedPaste := set_);
      case 1000 => modes := modes.(mouseX10 := set_);
      case 1002 => modes := modes.(mouseButton := set_);
      case 1003 => modes := modes.(mouseAny := set_);
      case 1004 => modes := modes.(focusEvents := set_);
      case 1006 => modes := modes.(mouseSgr := set_);
      case _ =>
    }

    // ---------------------------------------------------------------- printing

    method WriteChar(ch: u32)
      requires Valid()
      modifies this, cells
      ensures Valid() && cells == old(cells)
      ensures Core() == S.WriteChar(t, old(Core()), ch)
      ensures Fx() == S.WriteCharFx(t, old(Core()), old(Fx()), ch)
    {
      hide RowView, S.GridsOk, S.Place, S.PlaceFx, S.WrapIfNeeded, S.WrapFx, S.Expand, S.Dirty;
      if ShouldAppend(ch) {
        S.DirtyTwice(Fx(), cluster.value.row);
        AppendToCluster(ch);
        if S.IsRegionalIndicator(ch) {
          MaybeExpandRiPair();
        }
        return;
      }
      var width := S.ClusterWidth(t, ch);
      WrapIfNeeded(width);
      Place(ch, width);
    }

    predicate ShouldAppend(ch: u32)
      reads this
    {
      cluster.Some? &&
      (S.IsContinuer(t, ch) || cluster.value.afterZwj || (cluster.value.lastWasRi && S.IsRegionalIndicator(ch)))
    }

    method WrapIfNeeded(width: u16)
      requires Valid()
      modifies this, cells
      ensures Valid() && cells == old(cells)
      ensures Core() == S.WrapIfNeeded(old(Core()), width) && Fx() == S.WrapFx(old(Core()), old(Fx()), width)
    {
      hide RowView, S.GridsOk, S.ScrollUp;
      if !(cursor.pendingWrap || cols - cursor.col < width) {
        return;
      }
      if !autowrap {
        cursor := cursor.(pendingWrap := false);
        return;
      }
      cursor := cursor.(pendingWrap := false, col := 0);
      Index();
    }

    /** Write the cluster's cell or cells at the cursor, if they fit. */
    method Place(ch: u32, width: u16)
      requires Valid() && 1 <= width <= 2
      modifies this, cells
      ensures Valid() && cells == old(cells)
      ensures Core() == S.Place(old(Core()), ch, width) && Fx() == S.PlaceFx(old(Core()), old(Fx()), width)
    {
      hide RowView, Smash, S.GridsOk;
      if cols < width || cols - cursor.col < width {
        return;
      }
      PutCells(cursor.col, cursor.row, ch, width);
      Regrid(old(grid));
      OpenAtCursor(ch, width);
      AdvanceAfter(width);
    }

    method OpenAtCursor(ch: u32, width: u16)
      requires Valid() && 1 <= width <= 2
      modifies `cluster, `damage
      ensures Valid()
      ensures Core() == old(Core()).(cluster := Some(OpenCluster(cursor.row, cursor.col, 1, ch == 0x200D,
                                                                 S.IsRegionalIndicator(ch), width)))
      ensures Fx() == S.Dirty(old(Fx()), cursor.row, cursor.row)
    {
      hide RowView, S.GridsOk;
      cluster := Some(OpenCluster(cursor.row, cursor.col, 1, ch == 0x200D, S.IsRegionalIndicator(ch), width));
      DirtyRow(cursor.row);
    }

    method PutCells(col: u16, row: u16, ch: u32, width: u16)
      requires Tied() && 1 <= width <= 2 && row < rows && col + width <= cols
      modifies this`grid, cells
      ensures Tied()
      ensures grid == old(grid)[row := S.PutRow(old(grid)[row], col, width, ch, pen)]
    {
      hide RowView, Smash, S.GridsOk;
      SmashWideAt(col, row);
      if width == 2 {
        SmashWideAt(col + 1, row);
      }
      var sgr := Sgr(pen.attrs);
      SetCell(col, row, Cell(ch, pen.fg, pen.bg, if width == 2 then sgr + WIDE_LEAD else sgr));
      if width == 2 {
        SetCell(col + 1, row, Cell(ch, pen.fg, pen.bg, sgr + WIDE_TAIL));
      }
    }

    method SmashWideAt(col: nat, row: nat)
      requires Tied() && row < rows
      modifies this`grid, cells
      ensures Tied()
      ensures grid == old(grid)[row := Smash(old(grid)[row], col, pen.bg)]
    {
      hide RowView, S.GridsOk;
      if col >= cols {
        return;
      }
      var c := GetCell(col, row);
      if IsLead(c) && col + 1 < cols {
        var next := GetCell(col + 1, row);
        if IsTail(next) {
          SetCell(col + 1, row, Blank(pen.bg));
        }
      }
      if IsTail(c) && col > 0 {
        var prev := GetCell(col - 1, row);
        if IsLead(prev) {
          SetCell(col - 1, row, Blank(pen.bg));
        }
      }
    }

    method AppendToCluster(ch: u32)
      requires Valid() && cluster.Some?
      modifies this
      ensures Valid() && cells == old(cells)
      ensures Core() == S.Append(old(Core()), ch)
      ensures Fx() == S.Dirty(old(Fx()), old(cluster).value.row, old(cluster).value.row)
    {
      hide RowView, S.GridsOk;
      var cl := cluster.value;
      if cl.len >= S.GRAPHEME_MAX {
        truncated := SatAdd32(truncated, 1);
      } else {
        cl := cl.(len := cl.len + 1);
      }
      cluster := Some(cl.(afterZwj := ch == 0x200D, lastWasRi := S.IsRegionalIndicator(ch)));
      DirtyRow(cl.row);
    }

    method MaybeExpandRiPair()
      requires Valid() && cluster.Some?
      modifies this, cells
      ensures Valid() && cells == old(cells)
      ensures Core() == S.Expand(old(Core()))
      ensures var row := old(cluster).value.row;
              Fx() == if S.Expands(old(Core())) then S.Dirty(old(Fx()), row, row) else old(Fx())
    {
      hide RowView, Smash, S.GridsOk, S.WithRow, S.ExpandedRow, S.ExpandCluster, S.AdvanceAfter, S.Dirty;
      var cl := cluster.value;
      if cl.width >= 2 || cl.col + 1 >= cols || cl.row != cursor.row {
        return;
      }
      ExpandCluster();
      DirtyRow(cl.row);
      if cursor.col <= cl.col + 1 {
        AdvancePast(cl.col + 1);
      }
    }

    method AdvancePast(col: u16)
      requires Valid() && col < cols
      modifies `cursor
      ensures Valid()
      ensures S.Wf(old(Core()).(cursorCol := col)) && Core() == S.AdvanceAfter(old(Core()).(cursorCol := col), 1)
    {
      hide RowView, S.GridsOk;
      cursor := cursor.(col := col);
      AdvanceAfter(1);
    }

    method ExpandCluster()
      requires Valid() && S.Expands(Core())
      modifies `grid, `cluster, cells
      ensures Valid()
      ensures Core() == S.ExpandCluster(old(Core()))
    {
      hide RowView, Smash, S.GridsOk, S.ExpandedRow;
      var cl := cluster.value;
      ExpandCells(cl.col, cl.row);
      Regrid(old(grid));
      cluster := Some(cl.(width := 2));
    }

    method ExpandCells(col: u16, row: u16)
      requires Tied() && row < rows && col + 1 < cols
      modifies this`grid, cells
      ensures Tied()
      ensures grid == old(grid)[row := S.ExpandedRow(old(grid)[row], col, pen.bg)]
    {
      hide RowView, Smash, S.GridsOk;
      SmashWideAt(col + 1, row);
      var lead := GetCell(col, row);
      SetCell(col, row, lead.(attrs := Sgr(lead.attrs) + WIDE_LEAD));
      SetCell(col + 1, row, lead.(attrs := Sgr(lead.attrs) + WIDE_TAIL));
    }

    method AdvanceAfter(width: u16)
      requires Valid()
      modifies `cursor
      ensures Valid()
      ensures Core() == S.AdvanceAfter(old(Core()), width) && Fx() == old(Fx())
    {
      hide RowView, S.GridsOk;
      var next: int := cursor.col + width;
      if next < cols {
        cursor := cursor.(col := next, pendingWrap := false);
      } else {
        cursor := cursor.(col := cols - 1, pendingWrap := autowrap);
      }
    }

    // ---------------------------------------------------------------- erase, insert, delete

    method EraseSpan(from: nat, to: nat)
      requires Valid()
      modifies this, cells
      ensures Valid() && cells == old(cells)
      ensures var end := Min(to, Area(old(cols), old(rows)));
              var start := Min(from, end);
              Core() == S.EraseCore(old(Core()), start, end) && Fx() == S.EraseFx(old(Core()), old(Fx()), start, end)
    {
      var end := Min(to, cells.Length);
      EraseInside(Min(from, end), end);
    }

    method EraseInside(from: nat, to: nat)
      requires Valid() && from <= to <= Area(cols, rows)
      modifies this, cells
      ensures Valid() && cells == old(cells)
      ensures Core() == S.EraseCore(old(Core()), from, to) && Fx() == S.EraseFx(old(Core()), old(Fx()), from, to)
    {
      hide RowView, S.GridsOk, SpanErased, Smash;
      SmashCells(from, to);
      BlankCellsIn(from, to);
      SpanEnd(old(grid), cols, from, to, pen.bg);
      Regrid(old(grid));
      if from < to {
        var s := SpanRows(cols, rows, from, to);
        DirtyRows(s.0, s.1);
      }
    }

    method SmashCells(from: nat, to: nat)
      requires Tied() && cols > 0 && from <= to <= Area(cols, rows)
      modifies `grid, cells
      ensures Tied()
      ensures grid == SmashSpan(old(grid), cols, from, to, pen.bg)
    {
      hide RowView, SmashSpan;
      ghost var g := grid;
      SpanStart(g, cols, from, pen.bg);
      var i := from;
      while i < to
        invariant from <= i <= to && Tied()
        invariant grid == SmashSpan(g, cols, from, i, pen.bg)
      {
        SmashIndex(i);
        SmashSpanStep(g, cols, from, i, pen.bg);
        i := i + 1;
      }
    }

    /** Smash at a flat index. */
    method SmashIndex(i: nat)
      requires Tied() && cols > 0 && i < Area(cols, rows)
      modifies `grid, cells
      ensures Tied() && 0 <= i / cols < rows && 0 <= i % cols < cols
      ensures grid == old(grid)[i / cols := Smash(old(grid)[i / cols], i % cols, pen.bg)]
    {
      hide RowView, Smash;
      CellOf(i, cols, rows);
      SmashWideAt(i % cols, i / cols);
    }

    /** Blank at a flat index. */
    method BlankIndex(i: nat)
      requires Tied() && cols > 0 && i < Area(cols, rows)
      modifies `grid, cells
      ensures Tied() && 0 <= i / cols < rows && 0 <= i % cols < cols
      ensures grid == old(grid)[i / cols := old(grid)[i / cols][i % cols := Blank(pen.bg)]]
    {
      hide RowView, Blank;
      CellOf(i, cols, rows);
      SetCell(i % cols, i / cols, Blank(pen.bg));
    }

    method BlankCellsIn(from: nat, to: nat)
      requires Tied() && cols > 0 && from <= to <= Area(cols, rows)
      modifies `grid, cells
      ensures Tied()
      ensures grid == FillSpan(old(grid), cols, from, to, pen.bg)
    {
      hide RowView, FillSpan;
      ghost var g := grid;
      SpanStart(g, cols, from, pen.bg);
      var i := from;
      while i < to
        invariant from <= i <= to && Tied()
        invariant grid == FillSpan(g, cols, from, i, pen.bg)
      {
        BlankIndex(i);
        FillSpanStep(g, cols, from, i, pen.bg);
        i := i + 1;
      }
    }

    method EraseDisplay(mode: u16)
      requires Valid()
      modifies this, cells
      ensures Valid() && cells == old(cells)
      ensures var s := S.DisplaySpan(old(Core()), mode);
              Core() == S.EraseCore(old(Core()), s.0, s.1)
      ensures var s := S.DisplaySpan(old(Core()), mode);
              var f := S.EraseFx(old(Core()), old(Fx()), s.0, s.1);
              Fx() == if mode > 1 then S.FullDamage(f) else f
    {
      hide RowView, S.GridsOk, S.EraseCore, S.EraseFx;
      CellInGrid(cursor.col, cursor.row, cols, rows);
      var cur := Idx(cursor.col, cursor.row);
      if mode == 0 {
        EraseSpan(cur, Area(cols, rows));
      } else if mode == 1 {
        EraseSpan(0, cur + 1);
      } else {
        EraseSpan(0, Area(cols, rows));
        FullDamage();
      }
    }

    method EraseLine(mode: u16)
      requires Valid()
      modifies this, cells
      ensures Valid() && cells == old(cells)
      ensures var s := S.LineSpan(old(Core()), mode);
              Core() == S.EraseCore(old(Core()), s.0, s.1)
      ensures var s := S.LineSpan(old(Core()), mode);
              Fx() == S.EraseFx(old(Core()), old(Fx()), s.0, s.1)
    {
      hide RowView, S.GridsOk, S.EraseCore, S.EraseFx;
      CellInGrid(cursor.col, cursor.row, cols, rows);
      var cur := Idx(cursor.col, cursor.row);
      var start := Idx(0, cursor.row);
      if mode == 0 {
        EraseSpan(cur, start + cols);
      } else if mode == 1 {
        EraseSpan(start, cur + 1);
      } else {
        EraseSpan(start, start + cols);
      }
    }

    method EraseChars(n: u16)
      requires Valid()
      modifies this, cells
      ensures Valid() && cells == old(cells)
      ensures var s := S.CharSpan(old(Core()), n);
              Core() == S.EraseCore(old(Core()), s.0, s.1)
      ensures var s := S.CharSpan(old(Core()), n);
              Fx() == S.EraseFx(old(Core()), old(Fx()), s.0, s.1)
    {
      hide RowView, S.GridsOk, S.EraseCore, S.EraseFx;
      CellInGrid(cursor.col, cursor.row, cols, rows);
      var from := Idx(cursor.col, cursor.row);
      EraseSpan(from, from + Min(n, cols - cursor.col));
    }

    method InsertLines(count: u16)
      requires Valid()
      modifies this, cells
      ensures Valid() && cells == old(cells)
      ensures Core() == S.InsertLinesCore(old(Core()), count) && Fx() == S.LinesFx(old(Core()), old(Fx()), count)
    {
      hide RowView, S.GridsOk, LinesInserted, LinesDeleted, BlankRow, S.Dirty;
      if cursor.row < scrollTop || cursor.row > scrollBottom {
        return;
      }
      var n := Min(count, scrollBottom - cursor.row + 1);
      if n == 0 {
        NoLines(grid, cursor.row, scrollBottom, S.BlankLine(Core()));
        return;
      }
      AddRows(cursor.row, scrollBottom, n, pen.bg);
      Regrid(old(grid));
      DirtyRows(cursor.row, scrollBottom);
    }

    method DeleteLines(count: u16)
      requires Valid()
      modifies this, cells
      ensures Valid() && cells == old(cells)
      ensures Core() == S.DeleteLinesCore(old(Core()), count) && Fx() == S.LinesFx(old(Core()), old(Fx()), count)
    {
      hide RowView, S.GridsOk, LinesInserted, LinesDeleted, BlankRow, S.Dirty;
      if cursor.row < scrollTop || cursor.row > scrollBottom {
        return;
      }
      var n := Min(count, scrollBottom - cursor.row + 1);
      if n == 0 {
        NoLines(grid, cursor.row, scrollBottom, S.BlankLine(Core()));
        return;
      }
      RemoveRows(cursor.row, scrollBottom, n, pen.bg);
      Regrid(old(grid));
      DirtyRows(cursor.row, scrollBottom);
    }

    method InsertCells(count: u16)
      requires Valid()
      modifies this, cells
      ensures Valid() && cells == old(cells)
      ensures Core() == S.InsertCellsCore(old(Core()), count) && Fx() == S.CellsFx(old(Core()), old(Fx()), count)
    {
      hide RowView, S.GridsOk, CellsInserted;
      var n := Min(count, cols - cursor.col);
      if n == 0 {
        InsertNone(grid[cursor.row], cursor.col, pen.bg);
        return;
      }
      var row, col := cursor.row, cursor.col;
      ShiftCellsRight(row, col, n);
      Regrid(old(grid));
      DirtyRow(row);
    }

    method ShiftCellsRight(row: nat, col: nat, n: nat)
      requires Tied() && row < rows && col + n <= cols
      modifies `grid, cells
      ensures Tied()
      ensures grid == old(grid)[row := CellsInserted(old(grid)[row], col, n, pen.bg)]
    {
      hide RowView;
      MoveCells(row, col, row, col + n, cols - n - col);
      FillCells(row, col, col + n, pen.bg);
      CellsInsertedIs(old(grid)[row], col, n, pen.bg);
    }

    method DeleteCells(count: u16)
      requires Valid()
      modifies this, cells
      ensures Valid() && cells == old(cells)
      ensures Core() == S.DeleteCellsCore(old(Core()), count) && Fx() == S.CellsFx(old(Core()), old(Fx()), count)
    {
      hide RowView, S.GridsOk, CellsDeleted;
      var n := Min(count, cols - cursor.col);
      if n == 0 {
        DeleteNone(grid[cursor.row], cursor.col, pen.bg);
        return;
      }
      var row, col := cursor.row, cursor.col;
      SmashAndShiftLeft(row, col, n);
      Regrid(old(grid));
      DirtyRow(row);
    }

    method SmashAndShiftLeft(row: nat, col: nat, n: nat)
      requires Tied() && row < rows && col + n <= cols
      modifies `grid, cells
      ensures Tied()
      ensures grid == old(grid)[row := CellsDeleted(old(grid)[row], col, n, pen.bg)]
    {
      hide RowView, Smash;
      ghost var r := grid[row];
      var c := col;
      while c < col + n
        invariant col <= c <= col + n && Tied()
        invariant grid == old(grid)[row := SmashRange(r, col, c, pen.bg)]
      {
        SmashWideAt(c, row);
        c := c + 1;
      }
      ghost var s := SmashRange(r, col, col + n, pen.bg);
      MoveCells(row, col + n, row, col, cols - n - col);
      FillCells(row, cols - n, cols, pen.bg);
      CellsDeletedIs(r, s, col, n, pen.bg);
    }

    // ---------------------------------------------------------------- SGR and replies

    method ApplySgr(params0: seq<u16>)
      requires Valid()
      modifies `pen
      ensures pen == S.ApplySgr(old(pen), params0)
    {
      var params := if params0 == [] then [0] else params0;
      var i := 0;
      while i < |params|
        invariant 0 <= i <= |params|
        invariant S.SgrFrom(pen, params, i) == S.SgrFrom(old(pen), params, 0)
      {
        var n := params[i];
        i := i + 1;
        if n == 38 || n == 48 {
          if i < |params| && params[i] == 5 {
            i := i + 1;
            if i < |params| {
              pen := S.WithColor(pen, n == 38, S.PaintIndexed(params[i]));
              i := i + 1;
            }
          } else if i < |params| && params[i] == 2 {
            i := i + 1;
            if i + 2 < |params| {
              var c := Rgb(Min(params[i], 255), Min(params[i + 1], 255), Min(params[i + 2], 255));
              pen := S.WithColor(pen, n == 38, c);
              i := i + 3;
            }
          }
        } else {
          pen := S.SgrOne(pen, n);
        }
      }
    }

    method EnqueueReply(bytes: seq<u8>)
      requires |replies| <= S.REPLY_CAP
      modifies `replies, `repliesDropped
      ensures |replies| <= S.REPLY_CAP
      ensures Fx() == S.Reply(old(Fx()), bytes)
    {
      if discardReplies || |replies| + |bytes| > S.REPLY_CAP {
        repliesDropped := SatAdd32(repliesDropped, 1);
        return;
      }
      replies := replies + bytes;
    }

    /** The cursor as shown, counted from one; a pending wrap is not resolved. */
    method ReplyDsrCursor()
      requires |replies| <= S.REPLY_CAP
      modifies `replies, `repliesDropped
      ensures |replies| <= S.REPLY_CAP
      ensures Fx() == S.Reply(old(Fx()), S.CursorReport(cursor.row, cursor.col))
    {
      var row := WriteU16(SatAdd16(cursor.row, 1));
      var col := WriteU16(SatAdd16(cursor.col, 1));
      EnqueueReply([0x1b, 0x5b] + row + [0x3b] + col + [0x52]);
    }

    // ---------------------------------------------------------------- CSI

    method CsiMove(params: seq<u16>, fin: u8)
      requires Valid() && S.IsMove(fin)
      modifies this
      ensures Valid() && cells == old(cells)
      ensures Core() == S.CsiCore(old(Core()), params, fin) && Fx() == old(Fx())
    {
      hide RowView, S.GridsOk, S.SetCursor, S.CsiN;
      var n := S.CsiN(params, 0, 1);
      var row, col := cursor.row, cursor.col;
      match fin {
        case 0x41 => row := SatSub(row, n);
        case 0x42 => row := SatAdd16(row, n);
        case 0x43 => col := SatAdd16(col, n);
        case 0x44 => col := SatSub(col, n);
        case 0x45 => row, col := SatAdd16(row, n), 0;
        case 0x46 => row, col := SatSub(row, n), 0;
        case 0x47 => col := SatSub(n, 1);
        case 0x64 => row := SatSub(n, 1);
        case _ => row, col := SatSub(n, 1), SatSub(S.CsiN(params, 1, 1), 1);
      }
      SetCursor(row, col);
    }

    method ScrollUpTimes(n: u16)
      requires Valid()
      modifies this, cells
      ensures Valid() && cells == old(cells)
      ensures Core() == S.ScrollUpTimes(old(Core()), n) && Fx() == S.ScrollUpTimesFx(old(Core()), old(Fx()), n)
    {
      hide RowView, S.GridsOk, S.ScrollUp, S.ScrollUpFx;
      var i := 0;
      while i < n
        invariant 0 <= i <= n && Valid() && cells == old(cells)
        invariant Core() == S.ScrollUpTimes(old(Core()), i)
        invariant Fx() == S.ScrollUpTimesFx(old(Core()), old(Fx()), i)
      {
        ScrollUp();
        i := i + 1;
      }
    }

    method ScrollDownTimes(n: u16)
      requires Valid()
      modifies this, cells
      ensures Valid() && cells == old(cells)
      ensures Core() == S.ScrollDownTimes(old(Core()), n) && Fx() == S.ScrollDownTimesFx(old(Fx()), n)
    {
      hide RowView, S.GridsOk, S.ScrollDown;
      var i := 0;
      while i < n
        invariant 0 <= i <= n && Valid() && cells == old(cells)
        invariant Core() == S.ScrollDownTimes(old(Core()), i)
        invariant Fx() == S.ScrollDownTimesFx(old(Fx()), i)
      {
        ScrollDown();
        i := i + 1;
      }
    }

    method CsiEdit(params: seq<u16>, fin: u8)
      requires Valid() && S.IsEdit(fin)
      modifies this, cells
      ensures Valid() && cells == old(cells)
      ensures Core() == S.EditCore(old(Core()), params, fin) && Fx() == S.EditFx(old(Core()), old(Fx()), params, fin)
    {
      hide RowView, S.GridsOk, S.CsiN, S.EraseCore, S.EraseFx, S.FullDamage, S.DisplaySpan, S.LineSpan, S.CharSpan;
      hide S.InsertLinesCore, S.DeleteLinesCore, S.LinesFx, S.InsertCellsCore, S.DeleteCellsCore, S.CellsFx;
      hide S.ScrollUpTimes, S.ScrollUpTimesFx, S.ScrollDownTimes, S.ScrollDownTimesFx;
      var n := S.CsiN(params, 0, 1);
      match fin
      case 0x4a => EraseDisplay(S.CsiN(params, 0, 0));
      case 0x4b => EraseLine(S.CsiN(params, 0, 0));
      case 0x58 => EraseChars(n);
      case 0x4c => InsertLines(n);
      case 0x4d => DeleteLines(n);
      case 0x40 => InsertCells(n);
      case 0x50 => DeleteCells(n);
      case 0x53 => ScrollUpTimes(n);
      case _ => ScrollDownTimes(n);
    }

    method CsiDispatch(params: seq<u16>, fin: u8)
      requires Valid()
      modifies this, cells
      ensures Valid() && cells == old(cells)
      ensures Core() == S.CsiCore(old(Core()), params, fin) && Fx() == S.CsiFx(old(Core()), old(Fx()), params, fin)
    {
      hide RowView, S.GridsOk, S.CsiN, S.EditCore, S.EditFx;
      hide S.SetScrollRegion, S.ApplySgr, S.Reply, S.CursorReport, S.MoveTo;
      hide S.SetCursor;
      if S.IsMove(fin) {
        CsiMove(params, fin);
      } else if S.IsEdit(fin) {
        CsiEdit(params, fin);
      } else if fin == 0x72 {
        SetScrollRegion(params);
      } else if fin == 0x6d {
        ApplySgr(params);
      } else {
        CsiReport(params, fin);
      }
    }

    method CsiReport(params: seq<u16>, fin: u8)
      requires Valid()
      modifies `replies, `repliesDropped
      ensures Valid() && Core() == old(Core())
      ensures fin == 0x63 && S.CsiN(params, 0, 0) == 0 ==> Fx() == S.Reply(old(Fx()), S.PRIMARY_DA)
      ensures fin == 0x6e && S.CsiN(params, 0, 0) == 6 ==> Fx() == S.Reply(old(Fx()), S.CursorReport(cursor.row, cursor.col))
      ensures fin == 0x6e && S.CsiN(params, 0, 0) == 5 ==> Fx() == S.Reply(old(Fx()), S.STATUS_OK)
      ensures !(fin == 0x63 && S.CsiN(params, 0, 0) == 0) && !(fin == 0x6e && S.CsiN(params, 0, 0) in {5, 6}) ==>
                Fx() == old(Fx())
    {
      hide RowView, S.GridsOk, S.Reply, S.CursorReport;
      var n := S.CsiN(params, 0, 0);
      if fin == 0x63 && n == 0 {
        EnqueueReply(S.PRIMARY_DA);
      } else if fin == 0x6e && n == 6 {
        ReplyDsrCursor();
      } else if fin == 0x6e && n == 5 {
        EnqueueReply(S.STATUS_OK);
      }
    }

    // ---------------------------------------------------------------- the parser's actions

    method Print(ch: u32)
      requires Valid()
      modifies this, cells
      ensures Valid() && cells == old(cells)
      ensures Core() == S.StepCore(t, old(Core()), Action.Print(ch))
      ensures Fx() == S.StepFx(t, old(Core()), old(Fx()), Action.Print(ch))
    {
      hide RowView, S.GridsOk, S.WriteChar, S.WriteCharFx;
      WriteChar(ch);
    }

    method Execute(b: u8)
      requires Valid()
      modifies this, cells
      ensures Valid() && cells == old(cells)
      ensures Core() == S.StepCore(t, old(Core()), Action.Execute(b))
      ensures Fx() == S.StepFx(t, old(Core()), old(Fx()), Action.Execute(b))
    {
      hide RowView, S.GridsOk, S.ScrollUp;
      if !(0x08 <= b <= 0x0d) {
        return;
      }
      cluster := None;
      if 0x0a <= b <= 0x0c {
        cursor := cursor.(pendingWrap := false);
        Index();
      } else {
        var col := if b == 0x08 then SatSub(cursor.col, 1)
                   else if b == 0x09 then Min(S.NextTab(cursor.col), cols - 1)
                   else 0;
        cursor := Cursor(col, cursor.row, false);
      }
    }

    method Esc(inters: seq<u8>, b: u8)
      requires Valid()
      modifies this, cells
      ensures Valid() && cells == old(cells)
      ensures Core() == S.StepCore(t, old(Core()), Action.Esc(inters, b))
      ensures Fx() == S.StepFx(t, old(Core()), old(Fx()), Action.Esc(inters, b))
    {
      hide RowView, S.GridsOk, S.ScrollUp, S.ScrollDown;
      if b == 0x44 || b == 0x45 || b == 0x4d {
        cursor := cursor.(pendingWrap := false, col := if b == 0x45 then 0 else cursor.col);
        if b == 0x4d {
          ReverseIndex();
        } else {
          Index();
        }
      } else {
        EscOther(inters, b);
      }
    }

    /** DECSC, DECRC and the keypad modes. */
    method EscOther(inters: seq<u8>, b: u8)
      requires Valid() && b !in {0x44, 0x45, 0x4d}
      modifies this
      ensures Valid() && cells == old(cells)
      ensures Core() == S.EscCore(old(Core()), inters, b) && Fx() == old(Fx())
    {
      hide RowView, S.GridsOk;
      if b == 0x37 {
        savedCursor := Some(CaptureCursor());
      } else if b == 0x38 && savedCursor.Some? {
        RestoreCursor(savedCursor.value);
      } else if (b == 0x3d || b == 0x3e) && inters == [] {
        modes := modes.(appKeypad := b == 0x3d);
      }
    }

    method Csi(params: seq<u16>, inters: seq<u8>, ignore: bool, fin: u8)
      requires Valid()
      modifies this, cells
      ensures Valid() && (cells == old(cells) || fresh(cells))
      ensures Core() == S.StepCore(t, old(Core()), Action.Csi(params, inters, ignore, fin))
      ensures Fx() == S.StepFx(t, old(Core()), old(Fx()), Action.Csi(params, inters, ignore, fin))
    {
      hide RowView, S.GridsOk, S.PrivateModes, S.PrivateModesFx, S.CsiCore, S.CsiFx, S.Reply;
      if ignore {
        return;
      }
      if inters == [0x3f] && (fin == 0x68 || fin == 0x6c) {
        PrivateMode(params, fin == 0x68);
      } else if inters == [0x3e] && fin == 0x63 {
        EnqueueReply(S.SECONDARY_DA);
      } else if inters == [] {
        CsiDispatch(params, fin);
      }
    }

    method Osc(payload: seq<u8>)
      requires Valid()
      ensures Core() == S.StepCore(t, Core(), Action.Osc(payload)) && Fx() == S.StepFx(t, Core(), Fx(), Action.Osc(payload))
    {
    }

    // ---------------------------------------------------------------- host calls

    /** Zero columns or rows are an error and change nothing. */
    method Resize(newCols: u16, newRows: u16) returns (ok: bool)
      requires Valid()
      modifies this
      ensures Valid() && (cells == old(cells) || fresh(cells))
      ensures ok <==> newCols > 0 && newRows > 0
      ensures ok ==> Core() == S.Resize(old(Core()), newCols, newRows) && Fx() == S.FullDamage(old(Fx()))
      ensures !ok ==> Core() == old(Core()) && Fx() == old(Fx())
    {
      hide RowView, RowsOf, ResizeRows, S.GridsOk;
      if newCols == 0 || newRows == 0 {
        return false;
      }
      ResizeGrids(newCols, newRows);
      savedCursor := S.ResizeSaved(savedCursor, cols, rows);
      altCursor := S.ResizeSaved(altCursor, cols, rows);
      FullDamage();
      return true;
    }

    /** The buffers, the cursor, the region and the open cluster. */
    method ResizeGrids(newCols: u16, newRows: u16)
      requires Valid() && newCols > 0 && newRows > 0
      modifies this
      ensures Core() == S.ResizeGrids(old(Core()), newCols, newRows) && Fx() == old(Fx())
      ensures Valid() && fresh(cells)
    {
      hide RowView, RowsOf, ResizeRows, S.GridsOk, S.ResizeSavedRows, S.Wf;
      ClampCursor(newCols, newRows);
      ResizeBuffers(newCols, newRows);
      scrollTop := 0;
      scrollBottom := rows - 1;
    }

    /** Into a grid of the new size, and into this one still. */
    method ClampCursor(newCols: u16, newRows: u16)
      requires Valid() && newCols > 0 && newRows > 0
      modifies `cursor, `cluster
      ensures Valid()
      ensures cursor.col < newCols && cursor.row < newRows && cluster.None?
      ensures Core() == old(Core()).(cursorCol := Min(old(cursor).col, newCols - 1),
                                     cursorRow := Min(old(cursor).row, newRows - 1),
                                     pendingWrap := false, cluster := None)
    {
      hide RowView, RowsOf, S.GridsOk;
      cluster := None;
      cursor := Cursor(Min(cursor.col, newCols - 1), Min(cursor.row, newRows - 1), false);
    }

    method ResizeBuffers(newCols: u16, newRows: u16)
      requires Valid() && newCols > 0 && newRows > 0
      modifies `cols, `rows, `cells, `grid, `savedGrid
      ensures fresh(cells) && Tied() && cols == newCols && rows == newRows
      ensures savedGrid.Some? ==> |savedGrid.value| == Area(cols, rows)
      ensures grid == ResizeRows(old(grid), cols, rows)
      ensures SavedRows(savedGrid, cols, rows) == S.ResizeSavedRows(old(Core()).savedGrid, cols, rows)
      ensures S.GridsOk(grid, SavedRows(savedGrid, cols, rows), cols, rows)
    {
      RowViewRows(cells[..], cols, rows, grid);
      var next := ResizeCells(cells[..], cols, rows, newCols, newRows);
      if savedGrid.Some? {
        var saved := ResizeCells(savedGrid.value, cols, rows, newCols, newRows);
        savedGrid := Some(saved[..]);
      }
      cells, grid, cols, rows := next, ResizeRows(grid, newCols, newRows), newCols, newRows;
    }

    /** `resize_cells`: copy what fits into a new buffer of default blanks. */
    static method ResizeCells(from: seq<Cell>, oldCols: u16, oldRows: u16, cols: u16, rows: u16) returns (next: array<Cell>)
      requires |from| == Area(oldCols, oldRows)
      ensures fresh(next) && RowView(next[..], cols, rows, ResizeRows(RowsOf(from, oldCols, oldRows), cols, rows))
    {
      next := BlankCells(cols, rows, Default);
      ghost var g := RowsOf(from, oldCols, oldRows);
      PartRowsStart(g, cols, rows);
      var copyCols, copyRows: int := Min(oldCols, cols), Min(oldRows, rows);
      var r := 0;
      while r < copyRows
        invariant 0 <= r <= copyRows && RowView(next[..], cols, rows, PartRows(g, cols, rows, r, 0))
      {
        hide RowView, RowsOf, PartRows;
        var c := 0;
        while c < copyCols
          invariant 0 <= c <= copyCols && RowView(next[..], cols, rows, PartRows(g, cols, rows, r, c))
        {
          CopyCell(from, oldCols, oldRows, next, cols, rows, g, r, c);
          c := c + 1;
        }
        PartRowsNext(g, cols, rows, r);
        r := r + 1;
      }
      PartRowsEnd(g, cols, rows);
    }

    static method CopyCell(from: seq<Cell>, oldCols: u16, oldRows: u16, next: array<Cell>, cols: u16, rows: u16,
                           ghost g: Rows, r: nat, c: nat)
      requires |from| == Area(oldCols, oldRows) && g == RowsOf(from, oldCols, oldRows)
      requires r < oldRows && r < rows && c < oldCols && c < cols
      requires RowView(next[..], cols, rows, PartRows(g, cols, rows, r, c))
      modifies next
      ensures RowView(next[..], cols, rows, PartRows(g, cols, rows, r, c + 1))
    {
      CellInGrid(c, r, oldCols, oldRows);
      CellInGrid(c, r, cols, rows);
      RowsOfSet(from, oldCols, oldRows, c, r, from[r * oldCols + c]);
      PartRowsStep(g, cols, rows, r, c);
      ghost var s := next[..];
      RowsOfSet(s, cols, rows, c, r, from[r * oldCols + c]);
      next[r * cols + c] := from[r * oldCols + c];
      assert next[..] == s[r * cols + c := from[r * oldCols + c]];
    }

    method SetPalette(p: Palette)
      requires Valid() && WfPalette(p)
      modifies this
      ensures Valid() && cells == old(cells)
      ensures Core() == old(Core()).(palette := p) && Fx() == S.FullDamage(old(Fx()))
    {
      hide RowView, S.GridsOk;
      palette := p;
      FullDamage();
    }

    /** Hand out the grid as the host paints it, with its damage, and clear
        the damage. */
    method Snapshot() returns (pod: PodGrid)
      requires Valid()
      modifies `damage
      ensures Valid()
      ensures Core() == old(Core()) && Fx() == old(Fx()).(damage := S.NO_DAMAGE)
      ensures pod == S.PodOf(t, old(Core()), old(Fx()))
    {
      FlattenRowView(cells[..], cols, rows, grid);
      hide RowView, S.GridsOk, Flatten;
      pod := PodGrid(cols, rows, cursor.col, cursor.row, cursorVisible, damage.full, damage.row0, damage.row1,
                     t.rgba(palette, Default, true), t.rgba(palette, Default, false),
                     truncated, repliesDropped, PodRow(t, palette, cells[..]));
      damage := S.NO_DAMAGE;
    }

    method TakeReplies() returns (taken: seq<u8>)
      requires Valid()
      modifies `replies
      ensures Valid() && Core() == old(Core())
      ensures taken == old(replies) && Fx() == old(Fx()).(replies := [])
    {
      hide RowView, S.GridsOk;
      taken := replies;
      replies := [];
    }

    method TakeScrolledOff() returns (taken: seq<seq<PodCell>>)
      requires Valid()
      modifies `scrolledOff
      ensures Valid() && Core() == old(Core())
      ensures Fx() == old(Fx()).(scrolledOff := [])
      ensures |taken| == |old(scrolledOff)|
      ensures forall i :: 0 <= i < |taken| ==> taken[i] == PodRow(t, palette, old(scrolledOff)[i])
    {
      hide RowView, S.GridsOk;
      taken := [];
      var i := 0;
      while i < |scrolledOff|
        invariant 0 <= i <= |scrolledOff| == |old(scrolledOff)| && scrolledOff == old(scrolledOff) && |taken| == i
        invariant forall k :: 0 <= k < i ==> taken[k] == PodRow(t, palette, scrolledOff[k])
      {
        taken := taken + [PodRow(t, palette, scrolledOff[i])];
        i := i + 1;
      }
      scrolledOff := [];
    }

    // ---------------------------------------------------------------- repaint

    /** One past the last cell of a row that is not a default blank. */
    method LastInk(r: nat) returns (last: nat)
      requires Tied() && r < rows
      ensures last == R.InkEnd(grid[r]) <= cols
    {
      hide RowView;
      last := 0;
      var c := 0;
      while c < cols
        invariant 0 <= c <= cols && last == R.InkEnd(grid[r][..c])
      {
        assert grid[r][..c + 1][..c] == grid[r][..c];
        var cell := GetCell(c, r);
        if !R.IsBlankCell(cell) {
          last := c + 1;
        }
        c := c + 1;
      }
      assert grid[r][..cols] == grid[r];
    }

    /** The cells of one row, the rendition repeated only where it changes. */
    method RepaintRow(r: nat) returns (out: seq<u8>)
      requires Tied() && r < rows
      ensures out == R.RowBytes(grid[r], R.InkEnd(grid[r]))
    {
      hide RowView, R.CellBytes;
      var end := LastInk(r);
      var last := PLAIN;
      var c := 0;
      out := [];
      while c < end
        invariant 0 <= c <= end && out == R.RowBytes(grid[r], c) && last == R.PenAfter(grid[r], c)
      {
        var cell := GetCell(c, r);
        var bytes;
        bytes, last := RepaintCell(last, cell);
        out := out + bytes;
        c := c + 1;
      }
    }

    static method RepaintCell(last: Pen, cell: Cell) returns (out: seq<u8>, next: Pen)
      ensures out == R.CellBytes(last, cell) && next == R.CellPen(cell)
    {
      hide R.PenParams, R.SgrBytes;
      out, next := [], last;
      if cell.fg != last.fg || cell.bg != last.bg || Sgr(cell.attrs) != last.attrs {
        next := R.CellPen(cell);
        out := R.EmitPen(next);
      }
      if !IsTail(cell) {
        out := out + R.CharBytes(cell.codepoint);
      }
    }

    /** The screen as bytes that draw it. */
    method RepaintBytes() returns (out: seq<u8>)
      requires Valid()
      ensures out == R.RepaintBytes(Core())
    {
      assert |grid| == rows && Tied();
      hide Valid, Tied, R.GridBytes, R.HeadBytes, R.FootBytes;
      var head := RepaintHead();
      var lines := RepaintLines();
      var foot := RepaintFoot();
      out := head + lines + foot;
    }

    method RepaintHead() returns (out: seq<u8>)
      ensures out == R.HeadBytes(inAlt)
    {
      R.OneSgr([0]);
      hide F.Sequence;
      var reset := R.EmitOne(0, 0x6d);
      out := reset;
      if inAlt {
        var alt := R.EmitPrivate(1049, true);
        out := alt + reset;
      }
    }

    method RepaintLines() returns (out: seq<u8>)
      requires Tied()
      ensures out == R.GridBytes(grid, rows)
    {
      R.OneSgr([0]);
      hide RowView, R.RowBytes, R.SgrBytes, F.Sequence;
      var reset := R.EmitOne(0, 0x6d);
      assert R.CRLF + reset == R.NextLineBytes();
      hide R.NextLineBytes, R.InkEnd, R.CRLF, R.GridBytes;
      R.NoGridBytes(grid);
      out := [];
      var r := 0;
      while r < rows
        invariant 0 <= r <= rows && out == R.GridBytes(grid, r)
      {
        R.GridBytesNext(grid, r);
        var row := RepaintRow(r);
        out := out + row;
        if r + 1 < rows {
          out := out + (R.CRLF + reset);
        }
        r := r + 1;
      }
    }

    method RepaintFoot() returns (out: seq<u8>)
      ensures out == R.FootBytes(cursor.row, cursor.col, cursorVisible)
    {
      out := R.EmitTwo(SatAdd16(cursor.row, 1), SatAdd16(cursor.col, 1), 0x48);
      if !cursorVisible {
        var hidden := R.EmitPrivate(25, false);
        out := out + hidden;
      }
    }

    method SetDiscardReplies(discard: bool)
      requires Valid()
      modifies `discardReplies
      ensures Valid() && Core() == old(Core()) && Fx() == old(Fx()).(discard := discard)
    {
      hide RowView, S.GridsOk;
      discardReplies := discard;
    }

    // ---------------------------------------------------------------- checkpoints

    method ExportCheckpoint(offset: u64) returns (blob: seq<u8>)
      requires Valid()
      ensures blob == C.Export(Core(), offset)
    {
      FlattenRowView(cells[..], cols, rows, grid);
      if savedGrid.Some? {
        S.SavedGridOk(Core().savedGrid, grid, cols, rows);
        FlattenRowView(savedGrid.value, cols, rows, RowsOf(savedGrid.value, cols, rows));
      }
      hide RowView, RowsOf, S.GridsOk, Flatten, C.CoreFlags, C.Seal, C.Unhashed;
      var r := C.Record(cols, rows,
                        C.Place(cursor.col, cursor.row, scrollTop, scrollBottom, pen.attrs, CheckpointFlags()),
                        C.Ink(pen.fg, pen.bg, palette, truncated),
                        cells[..], savedGrid,
                        C.Pending(savedCursor, altCursor, cluster));
      blob := C.Write(r, offset);
    }

    function CheckpointFlags(): (f: u32)
      reads this
      ensures f == C.CoreFlags(Core())
    {
      C.BitsFlags([cursor.pendingWrap, autowrap, cursorVisible, inAlt, modes.appCursorKeys, modes.appKeypad,
                   modes.bracketedPaste, modes.mouseX10, modes.mouseButton, modes.mouseAny, modes.mouseSgr,
                   modes.focusEvents])
    }

    /** Replace the state with the one in the blob, or leave it alone. The
        scroll region and the cluster's position are taken as they are, so a
        blob that no export produced may leave the screen out of shape. */
    method ImportCheckpoint(bytes: seq<u8>) returns (r: C.Result<u64>)
      requires Valid()
      modifies this
      ensures match C.Import(bytes)
              case Err(e) => r == C.Err(e) && Core() == old(Core()) && Fx() == old(Fx()) && cells == old(cells) && Valid()
              case Ok((offset, c)) => r == C.Ok(offset) && Core() == c && Fx() == S.ImportFx(old(Fx())) && fresh(cells)
                                      && (S.Wf(c) ==> Valid())
    {
      hide RowView, RowsOf, S.GridsOk, C.CoreOf, C.ImportRecord;
      var got := C.Read(bytes);
      if got.Err? {
        return C.Err(got.error);
      }
      RestoreRecord(got.value.1);
      return C.Ok(got.value.0);
    }

    method RestoreRecord(rec: C.Record)
      requires C.WfRecord(rec)
      modifies this
      ensures Core() == C.CoreOf(rec) && Fx() == S.ImportFx(old(Fx())) && fresh(cells)
      ensures Tied() && |replies| == 0 && (savedGrid.Some? ==> |savedGrid.value| == Area(cols, rows))
    {
      hide RowView, RowsOf, C.Flag, C.FlagModes;
      LoadFields(rec);
      LoadModes(rec.place.flags);
      ForgetReplies();
    }

    ghost predicate Holds(r: C.Record)
      requires C.WfRecord(r)
      reads this
    {
      && cols == r.cols && rows == r.rows && savedGrid == r.savedGrid && grid == RowsOf(r.cells, cols, rows)
      && cursor == Cursor(Min(r.place.col, r.cols - 1), Min(r.place.row, r.rows - 1), C.Flag(r.place.flags, 0))
      && scrollTop == r.place.top && scrollBottom == r.place.bottom
      && pen == Pen(r.ink.fg, r.ink.bg, r.place.attrs) && palette == r.ink.palette && truncated == r.ink.truncated
      && savedCursor == r.pending.saved && altCursor == r.pending.alt && cluster == r.pending.cluster
    }

    method LoadFields(rec: C.Record)
      requires C.WfRecord(rec)
      modifies this
      ensures Holds(rec) && Tied() && fresh(cells)
      ensures Fx() == old(Fx())
    {
      hide RowView, RowsOf, C.Flag, C.FlagModes, C.WfRecord;
      LoadGrids(rec);
      LoadScalars(rec);
    }

    method LoadScalars(r: C.Record)
      requires C.WfRecord(r)
      modifies `cursor, `scrollTop, `scrollBottom, `pen, `palette, `truncated, `savedCursor, `altCursor, `cluster
      ensures cursor == Cursor(Min(r.place.col, r.cols - 1), Min(r.place.row, r.rows - 1), C.Flag(r.place.flags, 0))
      ensures scrollTop == r.place.top && scrollBottom == r.place.bottom
      ensures pen == Pen(r.ink.fg, r.ink.bg, r.place.attrs) && palette == r.ink.palette && truncated == r.ink.truncated
      ensures savedCursor == r.pending.saved && altCursor == r.pending.alt && cluster == r.pending.cluster
    {
      hide C.Flag;
      LoadPlace(r);
      LoadInk(r);
      LoadPending(r.pending);
    }

    method LoadGrids(r: C.Record)
      requires C.WfRecord(r)
      modifies `cols, `rows, `cells, `grid, `savedGrid
      ensures cols == r.cols && rows == r.rows && savedGrid == r.savedGrid
      ensures fresh(cells) && Tied() && grid == RowsOf(r.cells, cols, rows)
    {
      cells := Loaded(r.cells, r.cols, r.rows);
      cols, rows, grid, savedGrid := r.cols, r.rows, RowsOf(r.cells, r.cols, r.rows), r.savedGrid;
    }

    method LoadPlace(r: C.Record)
      requires C.WfRecord(r)
      modifies `cursor, `scrollTop, `scrollBottom
      ensures cursor == Cursor(Min(r.place.col, r.cols - 1), Min(r.place.row, r.rows - 1), C.Flag(r.place.flags, 0))
      ensures scrollTop == r.place.top && scrollBottom == r.place.bottom
    {
      cursor := Cursor(Min(r.place.col, r.cols - 1), Min(r.place.row, r.rows - 1), C.Flag(r.place.flags, 0));
      scrollTop := r.place.top;
      scrollBottom := r.place.bottom;
    }

    method LoadInk(r: C.Record)
      modifies `pen, `palette, `truncated
      ensures pen == Pen(r.ink.fg, r.ink.bg, r.place.attrs) && palette == r.ink.palette && truncated == r.ink.truncated
    {
      pen := Pen(r.ink.fg, r.ink.bg, r.place.attrs);
      palette := r.ink.palette;
      truncated := r.ink.truncated;
    }

    /** `apply_checkpoint_flags`, but for the pending wrap. */
    method LoadModes(f: u32)
      modifies `autowrap, `cursorVisible, `inAlt, `modes
      ensures autowrap == C.Flag(f, 1) && cursorVisible == C.Flag(f, 2) && inAlt == C.Flag(f, 3)
      ensures modes == C.FlagModes(f)
    {
      hide C.Flag;
      autowrap := C.Flag(f, 1);
      cursorVisible := C.Flag(f, 2);
      inAlt := C.Flag(f, 3);
      modes := C.FlagModes(f);
    }

    method LoadPending(p: C.Pending)
      modifies `savedCursor, `altCursor, `cluster
      ensures savedCursor == p.saved && altCursor == p.alt && cluster == p.cluster
    {
      savedCursor := p.saved;
      altCursor := p.alt;
      cluster := p.cluster;
    }

    method ForgetReplies()
      modifies `damage, `replies, `discardReplies
      ensures Fx() == S.ImportFx(old(Fx()))
    {
      damage := S.Damage(true, 0, 0);
      replies := [];
      discardReplies := false;
    }
  }
}
