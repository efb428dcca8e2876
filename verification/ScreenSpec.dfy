/** The screen as functions of its value. `Core` is the state a checkpoint
    records; `Fx` is what it does not (damage, replies, rows that scrolled
    off). The next core is a function of the core alone. */
module ScreenSpec {
  import opened VtTypes
  import opened Grid
  import opened Arith
  import opened Digits
  import Flat

  const GRAPHEME_MAX: u8 := 32
  const REPLY_CAP := 1024

  datatype Core = Core(
    cols: u16,
    rows: u16,
    grid: Rows,
    cursorCol: u16,
    cursorRow: u16,
    cursorVisible: bool,
    pendingWrap: bool,
    autowrap: bool,
    scrollTop: u16,
    scrollBottom: u16,
    palette: Palette,
    pen: Pen,
    savedCursor: Option<SavedCursor>,
    altCursor: Option<SavedCursor>,
    savedGrid: Option<Rows>,
    inAlt: bool,
    cluster: Option<OpenCluster>,
    truncated: u32,
    modes: Modes)

  datatype Damage = Damage(full: bool, row0: u16, row1: u16)

  datatype Fx = Fx(damage: Damage, replies: seq<u8>, dropped: u32, discard: bool, scrolledOff: Rows)

  datatype Display = Display(core: Core, fx: Fx)

  ghost predicate GridsOk(grid: Rows, saved: Option<Rows>, cols: int, rows: int) {
    Shaped(grid, cols, rows) && (saved.Some? ==> Shaped(saved.value, cols, rows))
  }

  lemma BothGridsOk(grid: Rows, cols: int, rows: int)
    requires GridsOk(grid, None, cols, rows)
    ensures GridsOk(grid, Some(grid), cols, rows)
  {
  }

  lemma NewGridOk(grid: Rows, grid': Rows, saved: Option<Rows>, cols: int, rows: int)
    requires GridsOk(grid, saved, cols, rows) && Shaped(grid', cols, rows)
    ensures GridsOk(grid', saved, cols, rows)
  {
  }

  lemma SavedGridOk(saved: Option<Rows>, grid: Rows, cols: int, rows: int)
    requires saved.Some? && GridsOk(grid, saved, cols, rows)
    ensures GridsOk(saved.value, None, cols, rows) && Shaped(saved.value, cols, rows)
  {
  }

  /** What every operation keeps. */
  ghost predicate Wf(c: Core) {
    && c.cols > 0 && c.rows > 0
    && GridsOk(c.grid, c.savedGrid, c.cols, c.rows)
    && c.cursorCol < c.cols && c.cursorRow < c.rows
    && c.scrollTop <= c.scrollBottom < c.rows
    && WfPalette(c.palette)
    && (c.inAlt <==> c.savedGrid.Some?)
    && (c.cluster.Some? ==> c.cluster.value.row < c.rows && c.cluster.value.col < c.cols)
  }

  ghost predicate WfFx(f: Fx) {
    |f.replies| <= REPLY_CAP
  }

  const NO_MODES := Modes(false, false, false, false, false, false, false, false)

  function NewCore(t: Tables, cols: u16, rows: u16): (c: Core)
    requires cols > 0 && rows > 0 && WfPalette(t.palette)
    ensures Wf(c)
  {
    Core(cols, rows, BlankGrid(cols, rows, Default), 0, 0, true, false, true, 0, rows - 1,
         t.palette, PLAIN, None, None, None, false, None, 0, NO_MODES)
  }

  const NEW_FX := Fx(Damage(true, 0, 0), [], 0, false, [])

  // ---------------------------------------------------------------- damage

  function FullDamage(f: Fx): Fx {
    f.(damage := f.damage.(full := true))
  }

  /** `dirty` on every row of `r0..=r1`. */
  function Dirty(f: Fx, r0: u16, r1: u16): Fx {
    var d := f.damage;
    if d.full then f
    else if d.row0 > d.row1 then f.(damage := d.(row0 := r0, row1 := r1))
    else f.(damage := d.(row0 := Min(d.row0, r0), row1 := Max(d.row1, r1)))
  }

  lemma DirtyTwice(f: Fx, r: u16)
    ensures Dirty(Dirty(f, r, r), r, r) == Dirty(f, r, r)
  {
  }

  // ---------------------------------------------------------------- scrolling

  function BlankLine(c: Core): Row {
    BlankRow(c.cols, c.pen.bg)
  }

  function ScrollUp(c: Core): (d: Core)
    requires Wf(c)
    ensures Wf(d)
  {
    c.(grid := LinesDeleted(c.grid, c.scrollTop, c.scrollBottom, 1, BlankLine(c)))
  }

  function ScrollUpFx(c: Core, f: Fx): Fx
    requires Wf(c)
  {
    var g := FullDamage(f);
    if !c.inAlt && c.scrollTop == 0 then g.(scrolledOff := f.scrolledOff + [c.grid[0]]) else g
  }

  function ScrollDown(c: Core): (d: Core)
    requires Wf(c)
    ensures Wf(d)
  {
    c.(grid := LinesInserted(c.grid, c.scrollTop, c.scrollBottom, 1, BlankLine(c)))
  }

  function ScrollUpTimes(c: Core, n: nat): (d: Core)
    requires Wf(c)
    ensures Wf(d)
    decreases n
  {
    if n == 0 then c else ScrollUp(ScrollUpTimes(c, n - 1))
  }

  function ScrollUpTimesFx(c: Core, f: Fx, n: nat): Fx
    requires Wf(c)
    decreases n
  {
    if n == 0 then f else ScrollUpFx(ScrollUpTimes(c, n - 1), ScrollUpTimesFx(c, f, n - 1))
  }

  function ScrollDownTimes(c: Core, n: nat): (d: Core)
    requires Wf(c)
    ensures Wf(d)
    decreases n
  {
    if n == 0 then c else ScrollDown(ScrollDownTimes(c, n - 1))
  }

  function ScrollDownTimesFx(f: Fx, n: nat): Fx {
    if n == 0 then f else FullDamage(f)
  }

  function Index(c: Core): (d: Core)
    requires Wf(c)
    ensures Wf(d)
  {
    if c.cursorRow < c.scrollBottom then c.(cursorRow := c.cursorRow + 1) else ScrollUp(c)
  }

  function IndexFx(c: Core, f: Fx): Fx
    requires Wf(c)
  {
    if c.cursorRow < c.scrollBottom then f else ScrollUpFx(c, f)
  }

  function ReverseIndex(c: Core): (d: Core)
    requires Wf(c)
    ensures Wf(d)
  {
    if c.cursorRow > c.scrollTop then c.(cursorRow := c.cursorRow - 1) else ScrollDown(c)
  }

  function ReverseIndexFx(c: Core, f: Fx): Fx {
    if c.cursorRow > c.scrollTop then f else FullDamage(f)
  }

  // ---------------------------------------------------------------- cursor

  /** A cursor move that ends a pending wrap and the open cluster. */
  function SetCursor(c: Core, row: u16, col: u16): (d: Core)
    requires Wf(c)
    ensures Wf(d)
  {
    c.(pendingWrap := false, cluster := None,
       cursorRow := Min(row, c.rows - 1), cursorCol := Min(col, c.cols - 1))
  }

  function Capture(c: Core): SavedCursor {
    SavedCursor(c.cursorCol, c.cursorRow, c.pendingWrap, c.pen)
  }

  function Restore(c: Core, s: SavedCursor): (d: Core)
    requires Wf(c)
    ensures Wf(d)
  {
    c.(cursorCol := Min(s.col, c.cols - 1), cursorRow := Min(s.row, c.rows - 1),
       pendingWrap := s.pendingWrap, pen := s.pen)
  }

  /** The next tab stop, in 16-bit arithmetic. */
  function NextTab(col: u16): u16 {
    (col / 8 + 1) * 8 % 0x1_0000
  }

  // ---------------------------------------------------------------- alternate screen

  function SaveScreen(c: Core, saveCursor: bool): (d: Core)
    requires Wf(c)
    ensures Wf(d)
  {
    c.(savedGrid := Some(c.grid), inAlt := true, altCursor := if saveCursor then Some(Capture(c)) else None)
  }

  function EnterAlt(c: Core, saveCursor: bool): (d: Core)
    requires Wf(c)
    ensures Wf(d)
  {
    var s := if c.inAlt then c else SaveScreen(c, saveCursor);
    SetCursor(s.(grid := BlankGrid(c.cols, c.rows, c.pen.bg)), 0, 0)
  }

  function TakeSaved(c: Core): (d: Core)
    requires Wf(c) && c.inAlt
    ensures Wf(d)
  {
    c.(grid := c.savedGrid.value, savedGrid := None, altCursor := None, inAlt := false)
  }

  function LeaveAlt(c: Core, restore: bool): (d: Core)
    requires Wf(c)
    ensures Wf(d)
  {
    if !c.inAlt then c
    else if restore && c.altCursor.Some? then Restore(TakeSaved(c), c.altCursor.value)
    else TakeSaved(c)
  }

  function LeaveAltFx(c: Core, f: Fx): Fx {
    if c.inAlt then FullDamage(f) else f
  }

  // ---------------------------------------------------------------- erase, insert, delete

  function CursorIndex(c: Core): nat {
    c.cursorRow * c.cols + c.cursorCol
  }

  function EraseCore(c: Core, from: nat, to: nat): (d: Core)
    requires Wf(c)
    ensures Wf(d)
  {
    c.(grid := SpanErased(c.grid, c.cols, from, to, c.pen.bg))
  }

  /** The damage of erasing the flat span `from..to`. */
  function EraseFx(c: Core, f: Fx, from: nat, to: nat): Fx
    requires Wf(c) && to <= c.cols * c.rows
  {
    if from < to then
      var s := SpanRows(c.cols, c.rows, from, to);
      Dirty(f, s.0, s.1)
    else f
  }

  /** The flat span of ED `mode`. */
  function DisplaySpan(c: Core, mode: u16): (s: (nat, nat))
    requires Wf(c)
    ensures s.0 < s.1 <= c.cols * c.rows
  {
    CellInGrid(c.cursorCol, c.cursorRow, c.cols, c.rows);
    if mode == 0 then (CursorIndex(c), c.cols * c.rows)
    else if mode == 1 then (0, CursorIndex(c) + 1)
    else (0, c.cols * c.rows)
  }

  /** The flat span of EL `mode`, on the cursor's row. */
  function LineSpan(c: Core, mode: u16): (s: (nat, nat))
    requires Wf(c)
    ensures s.0 < s.1 <= c.cols * c.rows
  {
    CellInGrid(c.cursorCol, c.cursorRow, c.cols, c.rows);
    var start := c.cursorRow * c.cols;
    if mode == 0 then (CursorIndex(c), start + c.cols)
    else if mode == 1 then (start, CursorIndex(c) + 1)
    else (start, start + c.cols)
  }

  function CharSpan(c: Core, n: u16): (s: (nat, nat))
    requires Wf(c)
    ensures s.0 <= s.1 <= c.cols * c.rows
  {
    CellInGrid(c.cursorCol, c.cursorRow, c.cols, c.rows);
    (CursorIndex(c), CursorIndex(c) + Min(n, c.cols - c.cursorCol))
  }

  predicate InRegion(c: Core) {
    c.scrollTop <= c.cursorRow <= c.scrollBottom
  }

  function LineCount(c: Core, n: u16): nat
    requires InRegion(c)
  {
    Min(n, c.scrollBottom - c.cursorRow + 1)
  }

  function InsertLinesCore(c: Core, n: u16): (d: Core)
    requires Wf(c)
    ensures Wf(d)
  {
    if !InRegion(c) then c
    else c.(grid := LinesInserted(c.grid, c.cursorRow, c.scrollBottom, LineCount(c, n), BlankLine(c)))
  }

  function DeleteLinesCore(c: Core, n: u16): (d: Core)
    requires Wf(c)
    ensures Wf(d)
  {
    if !InRegion(c) then c
    else c.(grid := LinesDeleted(c.grid, c.cursorRow, c.scrollBottom, LineCount(c, n), BlankLine(c)))
  }

  function LinesFx(c: Core, f: Fx, n: u16): Fx {
    if !InRegion(c) || n == 0 then f else Dirty(f, c.cursorRow, c.scrollBottom)
  }

  /** Replace the cursor's row. */
  function WithRow(c: Core, row: nat, r: Row): (d: Core)
    requires Wf(c) && row < c.rows && |r| == c.cols
    ensures Wf(d)
  {
    c.(grid := c.grid[row := r])
  }

  function InsertCellsCore(c: Core, n: u16): (d: Core)
    requires Wf(c)
    ensures Wf(d)
  {
    WithRow(c, c.cursorRow, CellsInserted(c.grid[c.cursorRow], c.cursorCol, Min(n, c.cols - c.cursorCol), c.pen.bg))
  }

  function DeleteCellsCore(c: Core, n: u16): (d: Core)
    requires Wf(c)
    ensures Wf(d)
  {
    WithRow(c, c.cursorRow, CellsDeleted(c.grid[c.cursorRow], c.cursorCol, Min(n, c.cols - c.cursorCol), c.pen.bg))
  }

  function CellsFx(c: Core, f: Fx, n: u16): Fx {
    if n == 0 then f else Dirty(f, c.cursorRow, c.cursorRow)
  }

  // ---------------------------------------------------------------- printing

  predicate IsRegionalIndicator(c: int) {
    0x1F1E6 <= c <= 0x1F1FF
  }

  predicate IsContinuer(t: Tables, c: int) {
    t.mark(c) || c == 0x200D || 0xFE00 <= c <= 0xFE0F || 0xE0100 <= c <= 0xE01EF
  }

  /** Whether a character joins the cluster that is open. */
  predicate Joins(t: Tables, cluster: Option<OpenCluster>, ch: u32) {
    match cluster
    case None => false
    case Some(cl) => IsContinuer(t, ch) || cl.afterZwj || (cl.lastWasRi && IsRegionalIndicator(ch))
  }

  predicate ShouldAppend(t: Tables, c: Core, ch: u32) {
    Joins(t, c.cluster, ch)
  }

  function ClusterWidth(t: Tables, ch: u32): u16 {
    if t.wide(ch) then 2 else 1
  }

  /** A cluster one scalar longer, up to its limit. */
  function Appended(cl: OpenCluster, ch: u32): OpenCluster {
    cl.(len := if cl.len >= GRAPHEME_MAX then cl.len else cl.len + 1,
        afterZwj := ch == 0x200D,
        lastWasRi := IsRegionalIndicator(ch))
  }

  /** The scalars that found their cluster full. */
  function Counted(cl: OpenCluster, truncated: u32): u32 {
    if cl.len >= GRAPHEME_MAX then SatAdd32(truncated, 1) else truncated
  }

  function Append(c: Core, ch: u32): (d: Core)
    requires Wf(c) && c.cluster.Some?
    ensures Wf(d) && d.cluster.Some?
  {
    var cl := c.cluster.value;
    c.(truncated := Counted(cl, c.truncated), cluster := Some(Appended(cl, ch)))
  }

  function AdvanceAfter(c: Core, width: u16): (d: Core)
    requires Wf(c)
    ensures Wf(d)
  {
    if c.cursorCol + width < c.cols then c.(cursorCol := c.cursorCol + width, pendingWrap := false)
    else c.(cursorCol := c.cols - 1, pendingWrap := c.autowrap)
  }

  /** Whether a regional indicator that was appended widens its cluster. */
  predicate Expands(c: Core) {
    && c.cluster.Some?
    && c.cluster.value.width < 2
    && c.cluster.value.col + 1 < c.cols
    && c.cluster.value.row == c.cursorRow
  }

  function ExpandedRow(row: Row, col: nat, bg: Color): (r: Row)
    requires col + 1 < |row|
    ensures |r| == |row|
  {
    var s := Smash(row, col + 1, bg);
    var lead := s[col];
    s[col := lead.(attrs := Sgr(lead.attrs) + WIDE_LEAD)][col + 1 := lead.(attrs := Sgr(lead.attrs) + WIDE_TAIL)]
  }

  /** Make the open cluster's cell the lead of a pair. */
  function ExpandCluster(c: Core): (d: Core)
    requires Wf(c) && Expands(c)
    ensures Wf(d)
  {
    var cl := c.cluster.value;
    WithRow(c, cl.row, ExpandedRow(c.grid[cl.row], cl.col, c.pen.bg)).(cluster := Some(cl.(width := 2)))
  }

  function Expand(c: Core): (d: Core)
    requires Wf(c)
    ensures Wf(d)
  {
    if !Expands(c) then c
    else
      var tail := c.cluster.value.col + 1;
      var e := ExpandCluster(c);
      if c.cursorCol <= tail then AdvanceAfter(e.(cursorCol := tail), 1) else e
  }

  predicate Wraps(c: Core, width: u16)
    requires Wf(c)
  {
    c.pendingWrap || c.cols - c.cursorCol < width
  }

  function WrapIfNeeded(c: Core, width: u16): (d: Core)
    requires Wf(c)
    ensures Wf(d)
  {
    if !Wraps(c, width) then c
    else if !c.autowrap then c.(pendingWrap := false)
    else Index(c.(pendingWrap := false, cursorCol := 0))
  }

  function WrapFx(c: Core, f: Fx, width: u16): Fx
    requires Wf(c)
  {
    if Wraps(c, width) && c.autowrap then IndexFx(c, f) else f
  }

  function PutRow(row: Row, col: nat, width: u16, ch: u32, pen: Pen): (r: Row)
    requires 1 <= width <= 2 && col + width <= |row|
    ensures |r| == |row|
  {
    var s := Smash(row, col, pen.bg);
    if width == 2 then
      Smash(s, col + 1, pen.bg)[col := Cell(ch, pen.fg, pen.bg, Sgr(pen.attrs) + WIDE_LEAD)]
                               [col + 1 := Cell(ch, pen.fg, pen.bg, Sgr(pen.attrs) + WIDE_TAIL)]
    else s[col := Cell(ch, pen.fg, pen.bg, Sgr(pen.attrs))]
  }

  /** Place a fresh cluster at the cursor, if it fits. */
  function Place(c: Core, ch: u32, width: u16): (d: Core)
    requires Wf(c) && 1 <= width <= 2
    ensures Wf(d)
  {
    if c.cols - c.cursorCol < width then c
    else
      var row, col := c.cursorRow, c.cursorCol;
      AdvanceAfter(
        WithRow(c, row, PutRow(c.grid[row], col, width, ch, c.pen))
        .(cluster := Some(OpenCluster(row, col, 1, ch == 0x200D, IsRegionalIndicator(ch), width))),
        width)
  }

  function PlaceFx(c: Core, f: Fx, width: u16): Fx {
    if c.cols - c.cursorCol < width then f else Dirty(f, c.cursorRow, c.cursorRow)
  }

  function WriteChar(t: Tables, c: Core, ch: u32): (d: Core)
    requires Wf(c)
    ensures Wf(d)
  {
    if ShouldAppend(t, c, ch) then
      var a := Append(c, ch);
      if IsRegionalIndicator(ch) then Expand(a) else a
    else
      var width := ClusterWidth(t, ch);
      Place(WrapIfNeeded(c, width), ch, width)
  }

  function WriteCharFx(t: Tables, c: Core, f: Fx, ch: u32): Fx
    requires Wf(c)
  {
    if ShouldAppend(t, c, ch) then Dirty(f, c.cluster.value.row, c.cluster.value.row)
    else
      var width := ClusterWidth(t, ch);
      PlaceFx(WrapIfNeeded(c, width), WrapFx(c, f, width), width)
  }

  // ---------------------------------------------------------------- control characters

  function ExecuteCore(c: Core, b: u8): (d: Core)
    requires Wf(c)
    ensures Wf(d)
  {
    var s := c.(pendingWrap := false, cluster := None);
    if b == 0x08 then s.(cursorCol := SatSub(c.cursorCol, 1))
    else if b == 0x09 then s.(cursorCol := Min(NextTab(c.cursorCol), c.cols - 1))
    else if 0x0a <= b <= 0x0c then Index(s)
    else if b == 0x0d then s.(cursorCol := 0)
    else c
  }

  function ExecuteFx(c: Core, f: Fx, b: u8): Fx
    requires Wf(c)
  {
    if 0x0a <= b <= 0x0c then IndexFx(c, f) else f
  }

  function EscCore(c: Core, inters: seq<u8>, b: u8): (d: Core)
    requires Wf(c)
    ensures Wf(d)
  {
    var s := c.(pendingWrap := false);
    if b == 0x37 then c.(savedCursor := Some(Capture(c)))
    else if b == 0x38 then (if c.savedCursor.Some? then Restore(c, c.savedCursor.value) else c)
    else if b == 0x44 then Index(s)
    else if b == 0x45 then Index(s.(cursorCol := 0))
    else if b == 0x4d then ReverseIndex(s)
    else if b == 0x3d && inters == [] then c.(modes := c.modes.(appKeypad := true))
    else if b == 0x3e && inters == [] then c.(modes := c.modes.(appKeypad := false))
    else c
  }

  function EscFx(c: Core, f: Fx, b: u8): Fx
    requires Wf(c)
  {
    if b == 0x44 || b == 0x45 then IndexFx(c, f)
    else if b == 0x4d then ReverseIndexFx(c, f)
    else f
  }

  // ---------------------------------------------------------------- SGR

  function SetBit(attrs: u16, bit: u16): u16
    requires bit in {1, 2, 4}
  {
    if attrs / bit % 2 == 1 then attrs else attrs + bit
  }

  function ClearBit(attrs: u16, bit: u16): u16
    requires bit in {1, 2, 4}
  {
    if attrs / bit % 2 == 1 then attrs - bit else attrs
  }

  function PaintIndexed(n: u16): Color {
    Indexed(Min(n, 255))
  }

  function WithColor(pen: Pen, fg: bool, c: Color): Pen {
    if fg then pen.(fg := c) else pen.(bg := c)
  }

  /** SGR `params[i..]` on a pen. `38` and `48` take the following parameters. */
  function SgrFrom(pen: Pen, params: seq<u16>, i: nat): Pen
    requires i <= |params|
    decreases |params| - i
  {
    if i == |params| then pen
    else
      var n := params[i];
      if n == 38 || n == 48 then
        if i + 1 < |params| && params[i + 1] == 5 then
          if i + 2 < |params| then SgrFrom(WithColor(pen, n == 38, PaintIndexed(params[i + 2])), params, i + 3)
          else pen
        else if i + 1 < |params| && params[i + 1] == 2 then
          if i + 4 < |params| then
            var c := Rgb(Min(params[i + 2], 255), Min(params[i + 3], 255), Min(params[i + 4], 255));
            SgrFrom(WithColor(pen, n == 38, c), params, i + 5)
          else SgrFrom(pen, params, i + 2)
        else SgrFrom(pen, params, i + 1)
      else SgrFrom(SgrOne(pen, n), params, i + 1)
  }

  /** A one-parameter rendition. */
  function SgrOne(pen: Pen, n: u16): Pen {
    if n == 0 then PLAIN
    else if n == 1 then pen.(attrs := SetBit(pen.attrs, 1))
    else if n == 4 then pen.(attrs := SetBit(pen.attrs, 2))
    else if n == 7 then pen.(attrs := SetBit(pen.attrs, 4))
    else if n == 22 then pen.(attrs := ClearBit(pen.attrs, 1))
    else if n == 24 then pen.(attrs := ClearBit(pen.attrs, 2))
    else if n == 27 then pen.(attrs := ClearBit(pen.attrs, 4))
    else if 30 <= n <= 37 then pen.(fg := PaintIndexed(n - 30))
    else if 90 <= n <= 97 then pen.(fg := PaintIndexed(n - 90 + 8))
    else if 40 <= n <= 47 then pen.(bg := PaintIndexed(n - 40))
    else if 100 <= n <= 107 then pen.(bg := PaintIndexed(n - 100 + 8))
    else if n == 39 then pen.(fg := Default)
    else if n == 49 then pen.(bg := Default)
    else pen
  }

  function ApplySgr(pen: Pen, params: seq<u16>): Pen {
    SgrFrom(pen, if params == [] then [0] else params, 0)
  }

  // ---------------------------------------------------------------- replies

  function Reply(f: Fx, bytes: seq<u8>): Fx {
    if f.discard || |f.replies| + |bytes| > REPLY_CAP then f.(dropped := SatAdd32(f.dropped, 1))
    else f.(replies := f.replies + bytes)
  }

  function CursorReport(row: u16, col: u16): seq<u8> {
    [0x1b, 0x5b] + Decimal(SatAdd16(row, 1)) + [0x3b] + Decimal(SatAdd16(col, 1)) + [0x52]
  }

  const PRIMARY_DA: seq<u8> := [0x1b, 0x5b, 0x3f, 0x36, 0x63]
  const SECONDARY_DA: seq<u8> := [0x1b, 0x5b, 0x3e, 0x30, 0x3b, 0x30, 0x3b, 0x30, 0x63]
  const STATUS_OK: seq<u8> := [0x1b, 0x5b, 0x30, 0x6e]

  // ---------------------------------------------------------------- CSI

  /** Parameter `i`, with 0 and absent standing for the default. */
  function CsiN(params: seq<u16>, i: nat, default: u16): u16 {
    if i < |params| && params[i] != 0 then params[i] else default
  }

  function SetScrollRegion(c: Core, params: seq<u16>): (d: Core)
    requires Wf(c)
    ensures Wf(d)
  {
    var top, bot := CsiN(params, 0, 1), CsiN(params, 1, c.rows);
    if bot > c.rows || top >= bot then c
    else SetCursor(c.(scrollTop := top - 1, scrollBottom := bot - 1), 0, 0)
  }

  function PrivateOne(c: Core, p: u16, set_: bool): (d: Core)
    requires Wf(c)
    ensures Wf(d)
  {
    if p == 7 then c.(autowrap := set_)
    else if p == 25 then c.(cursorVisible := set_)
    else if p == 1047 || p == 1049 then (if set_ then EnterAlt(c, p == 1049) else LeaveAlt(c, p == 1049))
    else c.(modes := InputMode(c.modes, p, set_))
  }

  function InputMode(m: Modes, p: u16, set_: bool): Modes {
    match p
    case 1 => m.(appCursorKeys := set_)
    case 2004 => m.(bracketedPaste := set_)
    case 1000 => m.(mouseX10 := set_)
    case 1002 => m.(mouseButton := set_)
    case 1003 => m.(mouseAny := set_)
    case 1004 => m.(focusEvents := set_)
    case 1006 => m.(mouseSgr := set_)
    case _ => m
  }

  function PrivateOneFx(c: Core, f: Fx, p: u16, set_: bool): Fx {
    if p == 1047 || p == 1049 then (if set_ then FullDamage(f) else LeaveAltFx(c, f)) else f
  }

  /** Modes `params[..n]`, left to right. */
  function PrivateModes(c: Core, params: seq<u16>, n: nat, set_: bool): (d: Core)
    requires Wf(c) && n <= |params|
    ensures Wf(d)
    decreases n
  {
    if n == 0 then c else PrivateOne(PrivateModes(c, params, n - 1, set_), params[n - 1], set_)
  }

  function PrivateModesFx(c: Core, f: Fx, params: seq<u16>, n: nat, set_: bool): Fx
    requires Wf(c) && n <= |params|
    decreases n
  {
    if n == 0 then f
    else PrivateOneFx(PrivateModes(c, params, n - 1, set_), PrivateModesFx(c, f, params, n - 1, set_), params[n - 1], set_)
  }

  /** The final bytes that only move the cursor: A B C D E F G H f d. */
  predicate IsMove(fin: u8) {
    0x41 <= fin <= 0x48 || fin == 0x66 || fin == 0x64
  }

  /** Where a cursor move asks to go; `SetCursor` clamps it. */
  function MoveTo(row: u16, col: u16, params: seq<u16>, fin: u8): (u16, u16)
    requires IsMove(fin)
  {
    var n := CsiN(params, 0, 1);
    match fin
    case 0x41 => (SatSub(row, n), col)
    case 0x42 => (SatAdd16(row, n), col)
    case 0x43 => (row, SatAdd16(col, n))
    case 0x44 => (row, SatSub(col, n))
    case 0x45 => (SatAdd16(row, n), 0)
    case 0x46 => (SatSub(row, n), 0)
    case 0x47 => (row, SatSub(n, 1))
    case 0x64 => (SatSub(n, 1), col)
    case _ => (SatSub(n, 1), SatSub(CsiN(params, 1, 1), 1))
  }

  /** The final bytes that erase, insert, delete or scroll: J K X L M @ P S T. */
  predicate IsEdit(fin: u8) {
    fin in {0x4a, 0x4b, 0x58, 0x4c, 0x4d, 0x40, 0x50, 0x53, 0x54}
  }

  function EditCore(c: Core, params: seq<u16>, fin: u8): (d: Core)
    requires Wf(c) && IsEdit(fin)
    ensures Wf(d)
  {
    var n := CsiN(params, 0, 1);
    match fin
    case 0x4a => var s := DisplaySpan(c, CsiN(params, 0, 0)); EraseCore(c, s.0, s.1)
    case 0x4b => var s := LineSpan(c, CsiN(params, 0, 0)); EraseCore(c, s.0, s.1)
    case 0x58 => var s := CharSpan(c, n); EraseCore(c, s.0, s.1)
    case 0x4c => InsertLinesCore(c, n)
    case 0x4d => DeleteLinesCore(c, n)
    case 0x40 => InsertCellsCore(c, n)
    case 0x50 => DeleteCellsCore(c, n)
    case 0x53 => ScrollUpTimes(c, n)
    case _ => ScrollDownTimes(c, n)
  }

  function EditFx(c: Core, f: Fx, params: seq<u16>, fin: u8): Fx
    requires Wf(c) && IsEdit(fin)
  {
    var n := CsiN(params, 0, 1);
    match fin
    case 0x4a =>
      var mode := CsiN(params, 0, 0);
      var s := DisplaySpan(c, mode);
      var g := EraseFx(c, f, s.0, s.1);
      if mode > 1 then FullDamage(g) else g
    case 0x4b => var s := LineSpan(c, CsiN(params, 0, 0)); EraseFx(c, f, s.0, s.1)
    case 0x58 => var s := CharSpan(c, n); EraseFx(c, f, s.0, s.1)
    case 0x4c => LinesFx(c, f, n)
    case 0x4d => LinesFx(c, f, n)
    case 0x40 => CellsFx(c, f, n)
    case 0x50 => CellsFx(c, f, n)
    case 0x53 => ScrollUpTimesFx(c, f, n)
    case _ => ScrollDownTimesFx(f, n)
  }

  function CsiCore(c: Core, params: seq<u16>, fin: u8): (d: Core)
    requires Wf(c)
    ensures Wf(d)
  {
    if IsMove(fin) then
      var to := MoveTo(c.cursorRow, c.cursorCol, params, fin);
      SetCursor(c, to.0, to.1)
    else if IsEdit(fin) then EditCore(c, params, fin)
    else if fin == 0x72 then SetScrollRegion(c, params)
    else if fin == 0x6d then c.(pen := ApplySgr(c.pen, params))
    else c
  }

  function CsiFx(c: Core, f: Fx, params: seq<u16>, fin: u8): Fx
    requires Wf(c)
  {
    if IsEdit(fin) then EditFx(c, f, params, fin)
    else if fin == 0x63 && CsiN(params, 0, 0) == 0 then Reply(f, PRIMARY_DA)
    else if fin == 0x6e && CsiN(params, 0, 0) == 6 then Reply(f, CursorReport(c.cursorRow, c.cursorCol))
    else if fin == 0x6e && CsiN(params, 0, 0) == 5 then Reply(f, STATUS_OK)
    else f
  }

  // ---------------------------------------------------------------- one action, any sequence of actions

  function StepCore(t: Tables, c: Core, a: Action): (d: Core)
    requires Wf(c)
    ensures Wf(d)
  {
    match a
    case Print(ch) => WriteChar(t, c, ch)
    case Execute(b) => ExecuteCore(c, b)
    case Esc(inters, b) => EscCore(c, inters, b)
    case Csi(params, inters, ignore, fin) =>
      if ignore then c
      else if inters == [0x3f] && (fin == 0x68 || fin == 0x6c) then PrivateModes(c, params, |params|, fin == 0x68)
      else if inters != [] then c
      else CsiCore(c, params, fin)
    case Osc(_) => c
  }

  function StepFx(t: Tables, c: Core, f: Fx, a: Action): Fx
    requires Wf(c)
  {
    match a
    case Print(ch) => WriteCharFx(t, c, f, ch)
    case Execute(b) => ExecuteFx(c, f, b)
    case Esc(_, b) => EscFx(c, f, b)
    case Csi(params, inters, ignore, fin) =>
      if ignore then f
      else if inters == [0x3f] && (fin == 0x68 || fin == 0x6c) then PrivateModesFx(c, f, params, |params|, fin == 0x68)
      else if inters == [0x3e] && fin == 0x63 then Reply(f, SECONDARY_DA)
      else if inters != [] then f
      else CsiFx(c, f, params, fin)
    case Osc(_) => f
  }

  function Step(t: Tables, d: Display, a: Action): (e: Display)
    requires Wf(d.core)
    ensures Wf(e.core)
  {
    Display(StepCore(t, d.core, a), StepFx(t, d.core, d.fx, a))
  }

  function StepAll(t: Tables, d: Display, acts: seq<Action>): (e: Display)
    requires Wf(d.core)
    ensures Wf(e.core)
    decreases acts
  {
    if acts == [] then d else StepAll(t, Step(t, d, acts[0]), acts[1..])
  }

  lemma StepOne(t: Tables, d: Display, a: Action)
    requires Wf(d.core)
    ensures StepAll(t, d, [a]) == Step(t, d, a)
  {
  }

  lemma StepNone(t: Tables, d: Display)
    requires Wf(d.core)
    ensures StepAll(t, d, []) == d
  {
  }

  lemma {:induction false} StepAllAppend(t: Tables, d: Display, xs: seq<Action>, ys: seq<Action>)
    requires Wf(d.core)
    ensures StepAll(t, d, xs + ys) == StepAll(t, StepAll(t, d, xs), ys)
    decreases xs
  {
    if xs == [] {
      assert [] + ys == ys;
    } else {
      assert (xs + ys)[1..] == xs[1..] + ys;
      StepAllAppend(t, Step(t, d, xs[0]), xs[1..], ys);
    }
  }

  function StepAllCore(t: Tables, c: Core, acts: seq<Action>): (d: Core)
    requires Wf(c)
    ensures Wf(d)
    decreases acts
  {
    if acts == [] then c else StepAllCore(t, StepCore(t, c, acts[0]), acts[1..])
  }

  lemma {:induction false} StepAllCoreAppend(t: Tables, c: Core, xs: seq<Action>, ys: seq<Action>)
    requires Wf(c)
    ensures StepAllCore(t, c, xs + ys) == StepAllCore(t, StepAllCore(t, c, xs), ys)
    decreases xs
  {
    hide Wf, StepCore;
    if xs == [] {
      assert [] + ys == ys;
    } else {
      assert (xs + ys)[1..] == xs[1..] + ys;
      StepAllCoreAppend(t, StepCore(t, c, xs[0]), xs[1..], ys);
    }
  }

  lemma StepOneCore(t: Tables, c: Core, a: Action)
    requires Wf(c)
    ensures StepAllCore(t, c, [a]) == StepCore(t, c, a)
  {
    hide Wf, StepCore;
  }

  // ---------------------------------------------------------------- host calls

  function ResizeSaved(s: Option<SavedCursor>, cols: u16, rows: u16): Option<SavedCursor>
    requires cols > 0 && rows > 0
  {
    match s
    case None => None
    case Some(c) => Some(c.(col := Min(c.col, cols - 1), row := Min(c.row, rows - 1)))
  }

  function ResizeSavedRows(s: Option<Rows>, cols: u16, rows: u16): Option<Rows> {
    match s
    case None => None
    case Some(g) => Some(ResizeRows(g, cols, rows))
  }

  function ResizeGrids(c: Core, cols: u16, rows: u16): (d: Core)
    requires Wf(c) && cols > 0 && rows > 0
    ensures Wf(d)
  {
    c.(cols := cols, rows := rows,
       grid := ResizeRows(c.grid, cols, rows),
       savedGrid := ResizeSavedRows(c.savedGrid, cols, rows),
       cursorCol := Min(c.cursorCol, cols - 1), cursorRow := Min(c.cursorRow, rows - 1),
       scrollTop := 0, scrollBottom := rows - 1,
       pendingWrap := false,
       cluster := None)
  }

  function Resize(c: Core, cols: u16, rows: u16): (d: Core)
    requires Wf(c) && cols > 0 && rows > 0
    ensures Wf(d)
  {
    ResizeGrids(c, cols, rows)
    .(savedCursor := ResizeSaved(c.savedCursor, cols, rows), altCursor := ResizeSaved(c.altCursor, cols, rows))
  }

  /** What an import does to the state it does not restore. */
  function ImportFx(f: Fx): Fx {
    f.(damage := Damage(true, 0, 0), replies := [], discard := false)
  }

  /** `snapshot` hands out the grid and clears the damage. */
  const NO_DAMAGE := Damage(false, 1, 0)

  /** The snapshot of a display: its cells in row-major order, painted. */
  function PodOf(t: Tables, c: Core, f: Fx): PodGrid {
    PodGrid(c.cols, c.rows, c.cursorCol, c.cursorRow, c.cursorVisible,
            f.damage.full, f.damage.row0, f.damage.row1,
            t.rgba(c.palette, Default, true), t.rgba(c.palette, Default, false),
            c.truncated, f.dropped, PodRow(t, c.palette, Flat.Flatten(c.grid)))
  }
}
