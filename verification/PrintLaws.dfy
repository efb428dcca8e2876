/** Where printed characters land: one character on any screen, and a text
    typed from the first column. */
module PrintLaws {
  import opened VtTypes
  import opened Grid
  import opened Shifts
  import opened Arith
  import opened ScreenSpec

  // ---------------------------------------------------------------- one character

  /** One row down, or at the bottom margin and below it, the region one up. */
  function NextLine(c: Core): (d: Core)
    requires Wf(c)
    ensures Wf(d)
  {
    if c.cursorRow < c.scrollBottom then c.(cursorRow := c.cursorRow + 1)
    else
      RowsUpShaped(c, 1);
      c.(grid := RowsUp(c.grid, c.scrollTop, c.scrollBottom, 1, BlankRow(c.cols, c.pen.bg)))
  }

  lemma RowsUpShaped(c: Core, n: nat)
    requires Wf(c)
    ensures GridsOk(RowsUp(c.grid, c.scrollTop, c.scrollBottom, n, BlankRow(c.cols, c.pen.bg)), c.savedGrid, c.cols, c.rows)
  {
    var g := c.grid;
    assert forall r :: 0 <= r < |g| ==> |g[r]| == c.cols;
  }

  lemma IndexIsNextLine(c: Core)
    requires Wf(c)
    ensures Index(c) == NextLine(c)
  {
    DeletedGoUp(c.grid, c.scrollTop, c.scrollBottom, 1, BlankRow(c.cols, c.pen.bg));
    hide LinesDeleted, RowsUp, GridsOk;
  }

  /** Whether overwriting `width` cells from `col` leaves the cell at `x`, half
      of a pair whose other half is overwritten, alone. */
  predicate Cut(row: Row, col: nat, width: nat, x: nat)
    requires 1 <= width <= 2 && col + width <= |row| && x < |row|
  {
    || (x + 1 == col && IsLead(row[x]) && IsTail(row[col]))
    || (x == col + width && IsLead(row[x - 1]) && IsTail(row[x])
        && !(width == 2 && IsLead(row[col]) && IsTail(row[col + 1])))
  }

  /** The row with a character over `width` of its cells: a cell, or a lead and
      its tail, in the pen's colours and rendition. */
  function Overwritten(row: Row, col: nat, width: nat, ch: u32, pen: Pen): (r: Row)
    requires 1 <= width <= 2 && col + width <= |row|
    ensures |r| == |row|
  {
    seq(|row|, x requires 0 <= x < |row| =>
      if x == col then Cell(ch, pen.fg, pen.bg, pen.attrs % 8 + (if width == 2 then 8 else 0))
      else if col < x < col + width then Cell(ch, pen.fg, pen.bg, pen.attrs % 8 + 16)
      else if Cut(row, col, width, x) then Blank(pen.bg)
      else row[x])
  }

  lemma PutRowOverwrites(row: Row, col: nat, width: u16, ch: u32, pen: Pen)
    requires 1 <= width <= 2 && col + width <= |row|
    ensures PutRow(row, col, width, ch, pen) == Overwritten(row, col, width, ch, pen)
  {
    var x, y := PutRow(row, col, width, ch, pen), Overwritten(row, col, width, ch, pen);
    assert !IsLead(Blank(pen.bg)) && !IsTail(Blank(pen.bg));
    forall k | 0 <= k < |row| ensures x[k] == y[k] {
    }
  }

  function WidthOf(t: Tables, ch: u32): u16 {
    if t.wide(ch) then 2 else 1
  }

  /** Where a character that starts a cell of its own is put: at the cursor, or
      with no room there and autowrap on, in the first column of the next line. */
  function Landing(t: Tables, c: Core, ch: u32): (d: Core)
    requires Wf(c)
    ensures Wf(d) && d.cols == c.cols
  {
    if (c.pendingWrap || c.cursorCol + WidthOf(t, ch) > c.cols) && c.autowrap then NextLine(c).(cursorCol := 0) else c
  }

  /** A character over the cells at the cursor, which comes after it, pending a
      wrap once the last column is full. */
  function Printed(c: Core, ch: u32, width: u16): (d: Core)
    requires Wf(c) && 1 <= width <= 2 && c.cursorCol + width <= c.cols
  {
    var row, col := c.cursorRow, c.cursorCol;
    c.(grid := c.grid[row := Overwritten(c.grid[row], col, width, ch, c.pen)],
       cursorCol := Min(col + width, c.cols - 1),
       pendingWrap := c.autowrap && col + width == c.cols,
       cluster := Some(OpenCluster(row, col, 1, ch == 0x200D, IsRegionalIndicator(ch), width)))
  }

  /** One character that joins nothing, on any screen: it is printed where it
      lands, and nothing is where it does not fit even there. */
  lemma PrintAlone(t: Tables, c: Core, ch: u32)
    requires Wf(c) && !Joins(t, c.cluster, ch)
    ensures var at, width := Landing(t, c, ch), WidthOf(t, ch);
            (StepCore(t, c, Print(ch))
             == if at.cursorCol + width <= c.cols then Printed(at, ch, width) else at.(pendingWrap := false))
  {
    LandingIs(t, c, ch);
    PlaceIs(Landing(t, c, ch).(pendingWrap := false), ch, WidthOf(t, ch));
    hide Place, Overwritten, GridsOk, WrapIfNeeded, NextLine;
  }

  lemma LandingIs(t: Tables, c: Core, ch: u32)
    requires Wf(c)
    ensures WrapIfNeeded(c, WidthOf(t, ch)) == Landing(t, c, ch).(pendingWrap := false)
  {
    IndexIsNextLine(c.(pendingWrap := false, cursorCol := 0));
    hide RowsUp, LinesDeleted, GridsOk, Index;
  }

  lemma PlaceIs(at: Core, ch: u32, width: u16)
    requires Wf(at) && 1 <= width <= 2 && !at.pendingWrap
    ensures Place(at, ch, width) == if at.cursorCol + width <= at.cols then Printed(at, ch, width) else at
  {
    if at.cursorCol + width <= at.cols {
      PutRowOverwrites(at.grid[at.cursorRow], at.cursorCol, width, ch, at.pen);
    }
    hide PutRow, Overwritten, GridsOk;
  }

  /** A wide character with one column left leaves that column alone and goes
      whole to the start of the next line. */
  lemma WideGoesDown(t: Tables, c: Core, ch: u32)
    requires Wf(c) && c.autowrap && t.wide(ch) && !Joins(t, c.cluster, ch)
    requires c.cursorCol == c.cols - 1 && c.cols >= 2
    ensures var d, row := StepCore(t, c, Print(ch)), c.cursorRow;
            if row < c.scrollBottom then d.cursorRow == row + 1 && d.grid[row] == c.grid[row]
            else d.cursorRow == row && (c.scrollTop < row == c.scrollBottom ==> d.grid[row - 1] == c.grid[row])
    ensures var d := StepCore(t, c, Print(ch));
            var glyph := Cell(ch, c.pen.fg, c.pen.bg, c.pen.attrs % 8);
            && d.grid[d.cursorRow][0] == glyph.(attrs := glyph.attrs + 8)
            && d.grid[d.cursorRow][1] == glyph.(attrs := glyph.attrs + 16)
            && d.cursorCol == Min(2, c.cols - 1) && (d.pendingWrap <==> c.cols == 2)
  {
    hide StepCore, GridsOk, NextLine, Printed;
    PrintAlone(t, c, ch);
    LineBelow(c);
    WidePrinted(NextLine(c).(cursorCol := 0), ch);
  }

  lemma LineBelow(c: Core)
    requires Wf(c)
    ensures |c.grid| == |NextLine(c).grid| == c.rows
    ensures var d, row := NextLine(c), c.cursorRow;
            if row < c.scrollBottom then d == c.(cursorRow := row + 1)
            else d == c.(grid := d.grid) && (c.scrollTop < row == c.scrollBottom ==> d.grid[row - 1] == c.grid[row])
  {
  }

  lemma WidePrinted(at: Core, ch: u32)
    requires Wf(at) && at.cursorCol == 0 && at.cols >= 2
    ensures var d, row := Printed(at, ch, 2), at.cursorRow;
            var glyph := Cell(ch, at.pen.fg, at.pen.bg, at.pen.attrs % 8);
            && d.cursorRow == row && |d.grid| == |at.grid| && |d.grid[row]| == at.cols
            && (forall y :: 0 <= y < |d.grid| && y != row ==> d.grid[y] == at.grid[y])
            && d.grid[row][0] == glyph.(attrs := glyph.attrs + 8)
            && d.grid[row][1] == glyph.(attrs := glyph.attrs + 16)
            && d.cursorCol == Min(2, at.cols - 1) && (d.pendingWrap <==> at.autowrap && at.cols == 2)
  {
    hide Cut;
  }

  /** A cell before the last of the cursor's row whose other half is not there. */
  predicate SparedLast(c: Core, x: nat)
    requires Wf(c) && x < c.cols
  {
    x + 2 < c.cols || (x + 2 == c.cols && !(IsLead(c.grid[c.cursorRow][x]) && IsTail(c.grid[c.cursorRow][x + 1])))
  }

  /** With autowrap off the cursor stays in the last column: a narrow character
      is printed over the one there, and nothing else moves; a wide one is not
      printed. */
  lemma LastColumnOverwritten(t: Tables, c: Core, ch: u32)
    requires Wf(c) && !c.autowrap && !Joins(t, c.cluster, ch) && c.cursorCol == c.cols - 1
    ensures var d := StepCore(t, c, Print(ch));
            && d.cursorCol == c.cursorCol && d.cursorRow == c.cursorRow && !d.pendingWrap && |d.grid| == |c.grid|
            && (t.wide(ch) ==> d.grid == c.grid)
            && (!t.wide(ch) ==> d.grid[c.cursorRow][c.cursorCol] == Cell(ch, c.pen.fg, c.pen.bg, c.pen.attrs % 8))
            && forall y, x :: 0 <= y < c.rows && 0 <= x < c.cols && (y != c.cursorRow || SparedLast(c, x)) ==>
                 d.grid[y][x] == c.grid[y][x]
  {
    PrintAlone(t, c, ch);
    hide StepCore;
  }

  // ---------------------------------------------------------------- a character that joins

  /** The cluster's cell and the one after it once a second regional indicator
      made a pair of them. */
  function Widened(row: Row, col: nat, bg: Color): (r: Row)
    requires col + 1 < |row|
    ensures |r| == |row|
  {
    var lead := if IsLead(row[col]) && IsTail(row[col + 1]) then Blank(bg) else row[col];
    seq(|row|, x requires 0 <= x < |row| =>
      if x == col then lead.(attrs := lead.attrs % 8 + 8)
      else if x == col + 1 then lead.(attrs := lead.attrs % 8 + 16)
      else if x == col + 2 && IsLead(row[col + 1]) && IsTail(row[x]) then Blank(bg)
      else row[x])
  }

  lemma ExpandedIsWidened(row: Row, col: nat, bg: Color)
    requires col + 1 < |row|
    ensures ExpandedRow(row, col, bg) == Widened(row, col, bg)
  {
    var x, y := ExpandedRow(row, col, bg), Widened(row, col, bg);
    forall k | 0 <= k < |row| ensures x[k] == y[k] {
    }
  }

  /** A character that joins the open cluster changes no cell and moves nothing;
      it is counted, up to 32 and then as lost. Only a regional indicator that
      joins a narrow cluster on the cursor's row, with a column to spare, makes
      its cell a pair, and pushes the cursor past it. */
  lemma PrintJoins(t: Tables, c: Core, ch: u32)
    requires Wf(c) && Joins(t, c.cluster, ch)
    ensures var cl := c.cluster.value;
            var longer := cl.(len := if cl.len < 32 then cl.len + 1 else cl.len, afterZwj := ch == 0x200D,
                              lastWasRi := IsRegionalIndicator(ch));
            var j := c.(cluster := Some(longer), truncated := if cl.len < 32 then c.truncated else SatAdd32(c.truncated, 1));
            var past := cl.col + 2;
            (StepCore(t, c, Print(ch))
             == if !(IsRegionalIndicator(ch) && cl.width < 2 && cl.col + 1 < c.cols && cl.row == c.cursorRow) then j
                else
                  var w := j.(grid := c.grid[cl.row := Widened(c.grid[cl.row], cl.col, c.pen.bg)],
                              cluster := Some(longer.(width := 2)));
                  if c.cursorCol >= past then w
                  else w.(cursorCol := Min(past, c.cols - 1), pendingWrap := c.autowrap && past == c.cols))
  {
    hide Expand, Widened, GridsOk;
    ExpandIs(Append(c, ch));
  }

  lemma ExpandIs(j: Core)
    requires Wf(j) && j.cluster.Some?
    ensures var cl := j.cluster.value;
            var past := cl.col + 2;
            (Expand(j)
             == if !(cl.width < 2 && cl.col + 1 < j.cols && cl.row == j.cursorRow) then j
                else
                  var w := j.(grid := j.grid[cl.row := Widened(j.grid[cl.row], cl.col, j.pen.bg)],
                              cluster := Some(cl.(width := 2)));
                  if j.cursorCol >= past then w
                  else w.(cursorCol := Min(past, j.cols - 1), pendingWrap := j.autowrap && past == j.cols))
  {
    var cl := j.cluster.value;
    if cl.col + 1 < j.cols {
      ExpandedIsWidened(j.grid[cl.row], cl.col, j.pen.bg);
    }
    hide ExpandedRow, Widened, GridsOk;
  }

  // ---------------------------------------------------------------- a text

  function Prints(text: seq<u32>): (acts: seq<Action>)
    ensures |acts| == |text|
  {
    seq(|text|, i requires 0 <= i < |text| => Print(text[i]))
  }

  /** The screen after the characters of a text were printed on it. */
  function AfterText(t: Tables, c: Core, text: seq<u32>): (d: Core)
    requires Wf(c)
    ensures Wf(d)
  {
    StepAllCore(t, c, Prints(text))
  }

  /** Narrow characters none of which joins what comes before it. */
  ghost predicate Separate(t: Tables, cluster: Option<OpenCluster>, text: seq<u32>) {
    && (forall i :: 0 <= i < |text| ==> !t.wide(text[i]))
    && (text != [] ==> !Joins(t, cluster, text[0]))
    && (forall i :: 0 < i < |text| ==> !JoinsAfter(t, text[i - 1], text[i]))
  }

  predicate JoinsAfter(t: Tables, before: u32, ch: u32) {
    IsContinuer(t, ch) || before == 0x200D || (IsRegionalIndicator(before) && IsRegionalIndicator(ch))
  }

  /** Whether the cell at `x` was left alone when the cells before it were
      overwritten one by one. */
  predicate Severed(row: Row, x: nat)
    requires x < |row|
  {
    x > 0 && IsLead(row[x - 1]) && IsTail(row[x]) && !Severed(row, x - 1)
  }

  /** The cell at (`x`, `y`) after a text was typed from the start of the
      cursor's row, the region having gone up by `up` on the way. */
  function TypedCell(c: Core, text: seq<u32>, up: nat, y: nat, x: nat): Cell
    requires Wf(c) && y < c.rows && x < c.cols
  {
    var line := if c.scrollTop <= y <= c.scrollBottom then y + up else y;
    var i := (line - c.cursorRow) * c.cols + x;
    if y > c.scrollBottom then c.grid[y][x]
    else if line >= c.cursorRow && 0 <= i < |text| then Cell(text[i], c.pen.fg, c.pen.bg, c.pen.attrs % 8)
    else if line > c.scrollBottom then Blank(c.pen.bg)
    else if line >= c.cursorRow && i == |text| && Severed(c.grid[line], x) then Blank(c.pen.bg)
    else c.grid[line][x]
  }

  function TypedRow(c: Core, text: seq<u32>, up: nat, y: nat): (r: Row)
    requires Wf(c) && y < c.rows
    ensures |r| == c.cols
  {
    seq(c.cols, x requires 0 <= x < c.cols => TypedCell(c, text, up, y, x))
  }

  function TypedGrid(c: Core, text: seq<u32>, up: nat): (g: Rows)
    requires Wf(c)
    ensures Shaped(g, c.cols, c.rows)
  {
    seq(c.rows, y requires 0 <= y < c.rows => TypedRow(c, text, up, y))
  }

  /** The screen with a text typed up to column `k` of row `row`. */
  function TypedCore(c: Core, text: seq<u32>, row: u16, up: nat, k: u16): Core
    requires Wf(c) && text != [] && 1 <= k <= c.cols
  {
    var last := text[|text| - 1];
    c.(grid := TypedGrid(c, text, up), cursorRow := row, cursorCol := Min(k, c.cols - 1), pendingWrap := k == c.cols,
       cluster := Some(OpenCluster(row, k - 1, 1, last == 0x200D, IsRegionalIndicator(last), 1)))
  }

  /** Line and column of an index are unique. */
  lemma SamePlace(a: nat, x: nat, b: nat, k: nat, cols: nat)
    requires x < cols && k < cols
    ensures a * cols + x < b * cols + k <==> a < b || (a == b && x < k)
    ensures a * cols + x == b * cols + k <==> a == b && x == k
  {
    if a < b {
      RowsApart(a, b, cols);
    } else if b < a {
      RowsApart(b, a, cols);
    }
  }

  /** A cell of the line of which the last `k` characters are typed. */
  function LastCell(c: Core, text: seq<u32>, line: nat, k: nat, x: nat): Cell
    requires Wf(c) && k <= |text| && x < c.cols
  {
    if x < k then Cell(text[|text| - k + x], c.pen.fg, c.pen.bg, c.pen.attrs % 8)
    else if line > c.scrollBottom || (x == k && Severed(c.grid[line], x)) then Blank(c.pen.bg)
    else c.grid[line][x]
  }

  lemma LastLine(c: Core, text: seq<u32>, lines: nat, k: nat, up: nat, x: nat)
    requires Wf(c) && |text| == lines * c.cols + k && k <= c.cols && x < c.cols
    requires up <= lines && c.cursorRow + lines - up <= c.scrollBottom
    requires up > 0 ==> c.cursorRow + lines - up == c.scrollBottom
    ensures k <= |text|
    ensures TypedCell(c, text, up, c.cursorRow + lines - up, x)
         == LastCell(c, text, c.cursorRow + lines, k, x)
  {
    hide GridsOk;
    assert |text| - k == lines * c.cols;
  }

  /** The lines before it are full. */
  lemma EarlierLine(c: Core, text: seq<u32>, ch: u32, lines: nat, k: nat, up: nat, y: nat, x: nat)
    requires Wf(c) && |text| == lines * c.cols + k && k < c.cols && y < c.rows && x < c.cols
    requires up <= lines && c.cursorRow + lines - up <= c.scrollBottom && y != c.cursorRow + lines - up
    requires up > 0 ==> c.cursorRow + lines - up == c.scrollBottom
    ensures TypedCell(c, text + [ch], up, y, x) == TypedCell(c, text, up, y, x)
  {
    hide GridsOk;
    var line := if c.scrollTop <= y <= c.scrollBottom then y + up else y;
    if y <= c.scrollBottom && line >= c.cursorRow {
      SamePlace(line - c.cursorRow, x, lines, k, c.cols);
      assert line - c.cursorRow != lines;
      if x == 0 {
        SamePlace(line - c.cursorRow, 0, lines, 0, c.cols);
      } else {
        SamePlace(line - c.cursorRow, x - 1, lines, k, c.cols);
      }
    }
  }

  /** Overwriting one cell after a narrow one. */
  lemma OverOne(row: Row, k: nat, ch: u32, pen: Pen, x: nat)
    requires k < |row| && x < |row| && (k > 0 ==> !IsLead(row[k - 1]))
    ensures Overwritten(row, k, 1, ch, pen)[x]
         == if x == k then Cell(ch, pen.fg, pen.bg, pen.attrs % 8)
            else if x == k + 1 && IsLead(row[k]) && IsTail(row[x]) then Blank(pen.bg)
            else row[x]
  {
  }

  /** What is typed is half of no pair; nor is a blank. */
  lemma Single(codepoint: u32, pen: Pen)
    ensures !IsLead(Cell(codepoint, pen.fg, pen.bg, pen.attrs % 8))
    ensures !IsTail(Cell(codepoint, pen.fg, pen.bg, pen.attrs % 8))
    ensures !IsLead(Blank(pen.bg)) && !IsTail(Blank(pen.bg))
  {
  }

  /** One cell when one more character is typed at column `k` of the last line. */
  lemma CellPush(c: Core, text: seq<u32>, ch: u32, lines: nat, k: nat, up: nat, x: nat)
    requires Wf(c) && |text| == lines * c.cols + k && k < c.cols && x < c.cols
    requires up <= lines && c.cursorRow + lines - up <= c.scrollBottom
    requires up > 0 ==> c.cursorRow + lines - up == c.scrollBottom
    ensures var y := c.cursorRow + lines - up;
            TypedCell(c, text + [ch], up, y, x) == Overwritten(TypedRow(c, text, up, y), k, 1, ch, c.pen)[x]
  {
    var y := c.cursorRow + lines - up;
    LastLine(c, text, lines, k, up, x);
    LastLine(c, text + [ch], lines, k + 1, up, x);
    LastLine(c, text, lines, k, up, k);
    if k > 0 {
      LastLine(c, text, lines, k, up, k - 1);
      Single(text[|text| - 1], c.pen);
    }
    Single(ch, c.pen);
    hide TypedCell, GridsOk, Overwritten, IsLead, IsTail;
    OverOne(TypedRow(c, text, up, y), k, ch, c.pen, x);
  }

  /** Writing one more character into the typed grid. */
  lemma TypedPush(c: Core, text: seq<u32>, ch: u32, lines: nat, k: nat, up: nat)
    requires Wf(c) && |text| == lines * c.cols + k && k < c.cols
    requires up <= lines && c.cursorRow + lines - up <= c.scrollBottom
    requires up > 0 ==> c.cursorRow + lines - up == c.scrollBottom
    ensures var y, g := c.cursorRow + lines - up, TypedGrid(c, text, up);
            g[y := Overwritten(g[y], k, 1, ch, c.pen)] == TypedGrid(c, text + [ch], up)
  {
    var y, g := c.cursorRow + lines - up, TypedGrid(c, text, up);
    var h, u := g[y := Overwritten(g[y], k, 1, ch, c.pen)], TypedGrid(c, text + [ch], up);
    hide Wf, TypedCell, Overwritten;
    forall r | 0 <= r < c.rows ensures h[r] == u[r] {
      forall x | 0 <= x < c.cols ensures h[r][x] == u[r][x] {
        if r == y {
          CellPush(c, text, ch, lines, k, up, x);
        } else {
          EarlierLine(c, text, ch, lines, k, up, r, x);
        }
      }
    }
  }

  /** A full screen goes up by one line. */
  lemma ScrolledCell(c: Core, text: seq<u32>, lines: nat, up: nat, y: nat, x: nat)
    requires Wf(c) && |text| == lines * c.cols && y < c.rows && x < c.cols
    requires up < lines && c.cursorRow + lines - up - 1 == c.scrollBottom
    ensures TypedCell(c, text, up + 1, y, x)
         == if !(c.scrollTop <= y <= c.scrollBottom) then TypedCell(c, text, up, y, x)
            else if y + 1 <= c.scrollBottom then TypedCell(c, text, up, y + 1, x) else Blank(c.pen.bg)
  {
    hide GridsOk, Severed;
  }

  lemma TypedScrolled(c: Core, text: seq<u32>, lines: nat, up: nat)
    requires Wf(c) && |text| == lines * c.cols && up < lines && c.cursorRow + lines - up - 1 == c.scrollBottom
    ensures RowsUp(TypedGrid(c, text, up), c.scrollTop, c.scrollBottom, 1, BlankRow(c.cols, c.pen.bg))
         == TypedGrid(c, text, up + 1)
  {
    var g := RowsUp(TypedGrid(c, text, up), c.scrollTop, c.scrollBottom, 1, BlankRow(c.cols, c.pen.bg));
    var u := TypedGrid(c, text, up + 1);
    hide GridsOk, TypedCell;
    forall y | 0 <= y < c.rows ensures g[y] == u[y] {
      forall x | 0 <= x < c.cols ensures g[y][x] == u[y][x] {
        ScrolledCell(c, text, lines, up, y, x);
      }
    }
  }

  /** The next character where the cursor stands. */
  lemma TypeHere(c: Core, text: seq<u32>, ch: u32, lines: nat, k: nat, up: nat, d: Core)
    requires Wf(c) && Wf(d) && c.autowrap && |text| == lines * c.cols + k && k < c.cols
    requires up <= lines && c.cursorRow + lines - up <= c.scrollBottom
    requires up > 0 ==> c.cursorRow + lines - up == c.scrollBottom
    requires d == c.(grid := TypedGrid(c, text, up), cursorRow := c.cursorRow + lines - up, cursorCol := k,
                     pendingWrap := d.pendingWrap, cluster := d.cluster)
    ensures Printed(d, ch, 1) == TypedCore(c, text + [ch], c.cursorRow + lines - up, up, k + 1)
  {
    TypedPush(c, text, ch, lines, k, up);
    hide TypedGrid, Overwritten, GridsOk;
  }

  /** Within a line the next character is typed beside the last one. */
  lemma TypeOn(t: Tables, c: Core, text: seq<u32>, ch: u32, lines: nat, k: nat, up: nat)
    requires Wf(c) && c.autowrap && |text| == lines * c.cols + k && 1 <= k < c.cols
    requires up <= lines && c.cursorRow + lines - up <= c.scrollBottom
    requires up > 0 ==> c.cursorRow + lines - up == c.scrollBottom
    requires text != [] && !t.wide(ch) && !JoinsAfter(t, text[|text| - 1], ch)
    ensures var row := c.cursorRow + lines - up;
            Wf(TypedCore(c, text, row, up, k))
            && StepCore(t, TypedCore(c, text, row, up, k), Print(ch)) == TypedCore(c, text + [ch], row, up, k + 1)
  {
    var d := TypedCore(c, text, c.cursorRow + lines - up, up, k);
    hide TypedGrid, GridsOk, NextLine, Printed;
    NewGridOk(c.grid, d.grid, c.savedGrid, c.cols, c.rows);
    PrintAlone(t, d, ch);
    hide StepCore;
    TypeHere(c, text, ch, lines, k, up, d);
  }

  /** A full line is left downwards. */
  lemma LineDone(c: Core, text: seq<u32>, lines: nat, up: nat, d: Core)
    requires Wf(c) && Wf(d) && |text| == (lines + 1) * c.cols
    requires up <= lines && c.cursorRow + lines - up <= c.scrollBottom
    requires up > 0 ==> c.cursorRow + lines - up == c.scrollBottom
    requires d == c.(grid := TypedGrid(c, text, up), cursorRow := c.cursorRow + lines - up, cursorCol := d.cursorCol,
                     pendingWrap := d.pendingWrap, cluster := d.cluster)
    ensures var up' := if d.cursorRow < c.scrollBottom then up else up + 1;
            NextLine(d) == d.(grid := TypedGrid(c, text, up'), cursorRow := c.cursorRow + lines + 1 - up')
  {
    if d.cursorRow == c.scrollBottom {
      TypedScrolled(c, text, lines + 1, up);
    }
    hide TypedGrid, GridsOk, RowsUp;
  }

  lemma TypedWf(c: Core, text: seq<u32>, row: u16, up: nat, k: u16)
    requires Wf(c) && text != [] && 1 <= k <= c.cols && row < c.rows
    ensures Wf(TypedCore(c, text, row, up, k))
  {
    hide GridsOk;
    NewGridOk(c.grid, TypedGrid(c, text, up), c.savedGrid, c.cols, c.rows);
    hide TypedGrid;
  }

  /** A full line is left before the next character is printed. */
  lemma FullLine(t: Tables, d: Core, ch: u32)
    requires Wf(d) && d.autowrap && d.pendingWrap && !t.wide(ch) && !Joins(t, d.cluster, ch)
    ensures StepCore(t, d, Print(ch)) == Printed(NextLine(d).(cursorCol := 0), ch, 1)
  {
    PrintAlone(t, d, ch);
    hide StepCore, NextLine, Printed, GridsOk;
  }

  /** With the line full, in the first column of the next one. */
  lemma TypeDown(t: Tables, c: Core, text: seq<u32>, ch: u32, lines: nat, up: nat)
    requires Wf(c) && c.autowrap && |text| == (lines + 1) * c.cols
    requires up <= lines && c.cursorRow + lines - up <= c.scrollBottom
    requires up > 0 ==> c.cursorRow + lines - up == c.scrollBottom
    requires text != [] && !t.wide(ch) && !JoinsAfter(t, text[|text| - 1], ch)
    ensures var row := c.cursorRow + lines - up;
            var up' := if row < c.scrollBottom then up else up + 1;
            Wf(TypedCore(c, text, row, up, c.cols))
            && StepCore(t, TypedCore(c, text, row, up, c.cols), Print(ch))
               == TypedCore(c, text + [ch], c.cursorRow + lines + 1 - up', up', 1)
  {
    hide StepCore, TypedGrid, GridsOk, Printed, NextLine, IsContinuer, IsRegionalIndicator;
    TypedWf(c, text, c.cursorRow + lines - up, up, c.cols);
    var d := TypedCore(c, text, c.cursorRow + lines - up, up, c.cols);
    var up' := if d.cursorRow < c.scrollBottom then up else up + 1;
    FullLine(t, d, ch);
    LineDone(c, text, lines, up, d);
    hide Wf;
    TypeHere(c, text, ch, lines + 1, 0, up', NextLine(d).(cursorCol := 0));
  }

  lemma PrintsPush(text: seq<u32>, ch: u32)
    ensures Prints(text + [ch]) == Prints(text) + [Print(ch)]
  {
  }

  lemma TypeFirst(t: Tables, c: Core, ch: u32)
    requires Wf(c) && c.autowrap && c.cursorCol == 0 && !c.pendingWrap && c.cursorRow <= c.scrollBottom
    requires !t.wide(ch) && !Joins(t, c.cluster, ch)
    ensures StepCore(t, c, Print(ch)) == TypedCore(c, [ch], c.cursorRow, 0, 1)
  {
    PrintAlone(t, c, ch);
    var g := TypedGrid(c, [], 0);
    forall y | 0 <= y < c.rows ensures g[y] == c.grid[y] {
      forall x | 0 <= x < c.cols ensures g[y][x] == c.grid[y][x] {
        FirstCell(c, y, x);
      }
    }
    assert g == c.grid;
    hide StepCore, TypedGrid, GridsOk, NextLine, Printed;
    TypeHere(c, [], ch, 0, 0, 0, c);
    assert [] + [ch] == [ch];
  }

  /** Nothing typed yet. */
  lemma FirstCell(c: Core, y: nat, x: nat)
    requires Wf(c) && y < c.rows && x < c.cols
    ensures TypedCell(c, [], 0, y, x) == c.grid[y][x]
  {
    if y > c.cursorRow {
      RowsApart(c.cursorRow, y, c.cols);
    }
    hide GridsOk;
  }

  /** How many characters fill `lines` lines and `k` columns more. */
  function Upto(lines: nat, k: nat, cols: nat): nat {
    lines * cols + k
  }

  lemma UptoSteps(lines: nat, k: nat, cols: nat)
    ensures k > 0 ==> Upto(lines, k, cols) == Upto(lines, k - 1, cols) + 1
    ensures lines > 0 ==> Upto(lines, 1, cols) == Upto(lines - 1, cols, cols) + 1
    ensures Upto(lines, k, cols) >= (if lines > 0 then cols + k else k)
    ensures lines == 0 ==> Upto(lines, k, cols) == k
  {
    if lines > 0 {
      assert lines * cols == (lines - 1) * cols + cols;
    }
  }

  /** A text typed up to column `k` of its line `lines`. */
  ghost predicate TypedTo(t: Tables, c: Core, text: seq<u32>, lines: nat, k: nat)
    requires Wf(c)
  {
    && text != [] && |text| == Upto(lines, k, c.cols) && 1 <= k <= c.cols && c.cursorRow <= c.scrollBottom
    && AfterText(t, c, text)
       == TypedCore(c, text, Min(c.cursorRow + lines, c.scrollBottom), SatSub(c.cursorRow + lines, c.scrollBottom), k)
  }

  lemma TypedBeside(t: Tables, c: Core, text: seq<u32>, ch: u32, lines: nat, k: nat)
    requires Wf(c) && c.autowrap && TypedTo(t, c, text, lines, k) && k < c.cols
    requires !t.wide(ch) && !JoinsAfter(t, text[|text| - 1], ch)
    ensures TypedTo(t, c, text + [ch], lines, k + 1)
  {
    hide StepCore, TypedCore, AfterText, JoinsAfter, GridsOk;
    TypeOn(t, c, text, ch, lines, k, SatSub(c.cursorRow + lines, c.scrollBottom));
    PrintsLast(t, c, text, ch);
  }

  lemma TypedBelow(t: Tables, c: Core, text: seq<u32>, ch: u32, lines: nat)
    requires Wf(c) && c.autowrap && TypedTo(t, c, text, lines, c.cols)
    requires !t.wide(ch) && !JoinsAfter(t, text[|text| - 1], ch)
    ensures TypedTo(t, c, text + [ch], lines + 1, 1)
  {
    hide StepCore, TypedCore, AfterText, JoinsAfter, GridsOk;
    UptoSteps(lines + 1, 1, c.cols);
    TypeDown(t, c, text, ch, lines, SatSub(c.cursorRow + lines, c.scrollBottom));
    PrintsLast(t, c, text, ch);
  }

  /** A text typed from the first column, autowrap on, as long as it likes: it
      fills line after line downwards, and below the bottom margin the region
      goes up a row for every line. */
  lemma {:induction false} TypedText(t: Tables, c: Core, text: seq<u32>, lines: nat, k: nat)
    requires Wf(c) && c.autowrap && c.cursorCol == 0 && !c.pendingWrap && c.cursorRow <= c.scrollBottom
    requires Separate(t, c.cluster, text) && |text| == Upto(lines, k, c.cols) && 1 <= k <= c.cols
    ensures TypedTo(t, c, text, lines, k)
    decreases |text|
  {
    hide *;
    UptoSteps(lines, k, c.cols);
    var n, ch := |text| - 1, text[|text| - 1];
    var init := text[..n];
    assert text == init + [ch];
    SeparateInit(t, c.cluster, text);
    if n == 0 {
      TypedOne(t, c, ch);
    } else if k > 1 {
      TypedText(t, c, init, lines, k - 1);
      TypedBeside(t, c, init, ch, lines, k - 1);
    } else {
      TypedText(t, c, init, lines - 1, c.cols);
      TypedBelow(t, c, init, ch, lines - 1);
    }
  }

  lemma TypedOne(t: Tables, c: Core, ch: u32)
    requires Wf(c) && c.autowrap && c.cursorCol == 0 && !c.pendingWrap && c.cursorRow <= c.scrollBottom
    requires !t.wide(ch) && !Joins(t, c.cluster, ch)
    ensures TypedTo(t, c, [ch], 0, 1)
  {
    TypeFirst(t, c, ch);
    PrintsOne(t, c, ch);
    hide StepCore, AfterText, GridsOk, TypedCore;
  }

  lemma SeparateInit(t: Tables, cluster: Option<OpenCluster>, text: seq<u32>)
    requires text != [] && Separate(t, cluster, text)
    ensures var n := |text| - 1;
            !t.wide(text[n])
            && (if n == 0 then !Joins(t, cluster, text[0])
                else Separate(t, cluster, text[..n]) && !JoinsAfter(t, text[n - 1], text[n]))
  {
    hide JoinsAfter, Joins;
  }

  lemma PrintsOne(t: Tables, c: Core, ch: u32)
    requires Wf(c)
    ensures AfterText(t, c, [ch]) == StepCore(t, c, Print(ch))
  {
    assert Prints([ch]) == [Print(ch)];
    StepOneCore(t, c, Print(ch));
    hide StepCore, Wf;
  }

  lemma PrintsLast(t: Tables, c: Core, text: seq<u32>, ch: u32)
    requires Wf(c)
    ensures AfterText(t, c, text + [ch]) == StepCore(t, AfterText(t, c, text), Print(ch))
  {
    PrintsPush(text, ch);
    StepAllCoreAppend(t, c, Prints(text), [Print(ch)]);
    StepOneCore(t, StepAllCore(t, c, Prints(text)), Print(ch));
    hide StepCore, Wf, StepAllCore, Prints;
  }

  function LineOf(i: nat, cols: nat): nat
    requires cols > 0
  {
    i / cols
  }

  function ColumnOf(i: nat, cols: nat): (x: nat)
    requires cols > 0
    ensures x < cols
  {
    i % cols
  }

  function CellAt(g: Rows, y: int, x: int): Option<Cell> {
    if 0 <= y < |g| && 0 <= x < |g[y]| then Some(g[y][x]) else None
  }

  /** Where character `i` of a typed text is, while its line is on the screen. */
  ghost predicate Landed(c: Core, text: seq<u32>, i: nat, up: nat, d: Core)
    requires Wf(c) && i < |text|
  {
    var row := c.cursorRow + LineOf(i, c.cols);
    row < c.scrollTop || row - up >= c.scrollTop ==>
      CellAt(d.grid, if row < c.scrollTop then row else row - up, ColumnOf(i, c.cols))
      == Some(Cell(text[i], c.pen.fg, c.pen.bg, c.pen.attrs % 8))
  }

  /** So character `i` of a typed text is in column `i % cols` of line
      `i / cols`, for as long as that line is on the screen; and the cursor is
      after the last one, pending a wrap when it filled its line. */
  lemma TextLands(t: Tables, c: Core, text: seq<u32>, i: nat)
    requires Wf(c) && c.autowrap && c.cursorCol == 0 && !c.pendingWrap && c.cursorRow <= c.scrollBottom
    requires Separate(t, c.cluster, text) && i < |text|
    ensures var d, last, next := AfterText(t, c, text), c.cursorRow + LineOf(|text| - 1, c.cols), ColumnOf(|text|, c.cols);
            && d.cursorRow == Min(last, c.scrollBottom)
            && d.cursorCol == (if next == 0 then c.cols - 1 else next) && (d.pendingWrap <==> next == 0)
            && Landed(c, text, i, SatSub(last, c.scrollBottom), d)
  {
    var lines := LineOf(|text| - 1, c.cols);
    var next := ColumnOf(|text|, c.cols);
    var k := if next == 0 then c.cols else next;
    CountLines(|text|, i, c.cols);
    hide AfterText, GridsOk, TypedGrid, Separate, LineOf, ColumnOf, Upto, Landed;
    TypedText(t, c, text, lines, k);
    Shows(c, text, SatSub(c.cursorRow + lines, c.scrollBottom), i, AfterText(t, c, text));
  }

  /** The last line of `n` characters, and that of character `i`. */
  lemma CountLines(n: nat, i: nat, cols: nat)
    requires i < n && cols > 0
    ensures n == Upto(LineOf(n - 1, cols), if ColumnOf(n, cols) == 0 then cols else ColumnOf(n, cols), cols)
    ensures LineOf(i, cols) <= LineOf(n - 1, cols)
  {
    var lines := LineOf(n - 1, cols);
    assert n - 1 == lines * cols + (n - 1) % cols;
    DivMono(i, n - 1, cols);
    Remainder(n, lines, n - lines * cols, cols);
  }

  /** In the typed grid. */
  lemma Shows(c: Core, text: seq<u32>, up: nat, i: nat, d: Core)
    requires Wf(c) && i < |text| && c.cursorRow + LineOf(i, c.cols) <= c.scrollBottom + up
    requires d.grid == TypedGrid(c, text, up)
    ensures Landed(c, text, i, up, d)
  {
    hide GridsOk, Severed;
    assert i == LineOf(i, c.cols) * c.cols + ColumnOf(i, c.cols);
    hide LineOf, ColumnOf;
  }

  lemma Remainder(n: nat, lines: nat, k: nat, cols: nat)
    requires 1 <= k <= cols && n == lines * cols + k
    ensures n % cols == if k == cols then 0 else k
  {
    if k == cols {
      assert n == (lines + 1) * cols;
    }
    assert n == n / cols * cols + n % cols;
    if k == cols {
      SamePlace(n / cols, n % cols, lines + 1, 0, cols);
    } else {
      SamePlace(n / cols, n % cols, lines, k, cols);
    }
  }
}
