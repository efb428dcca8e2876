/** The host's scrollback: the rows the emulator handed over, and the window
    shown over them. */
module Viewport {
  import opened VtTypes
  import opened Arith
  import Ring

  const MAX_HISTORY_ROWS := 10_000

  type PodLine = seq<PodCell>

  /** Rows drained from the emulator, the oldest dropped beyond the limit. */
  class History {
    var rows: seq<PodLine>
    /** Every row ever drained. */
    ghost var drained: seq<PodLine>

    /** The last 10,000 drained rows, in order. */
    ghost predicate Valid()
      reads this
    {
      rows == Ring.Kept(drained, MAX_HISTORY_ROWS)
    }

    constructor ()
      ensures Valid() && drained == []
    {
      rows, drained := [], [];
    }

    /** `ingest_scrolled`. */
    method Ingest(more: seq<PodLine>)
      requires Valid()
      modifies this
      ensures Valid() && drained == old(drained) + more
    {
      var i := 0;
      while i < |more|
        invariant 0 <= i <= |more| && Valid() && drained == old(drained) + more[..i]
      {
        Ring.KeptAppend(drained, [more[i]], MAX_HISTORY_ROWS);
        assert more[..i + 1] == more[..i] + [more[i]];
        drained := drained + [more[i]];
        rows := rows + [more[i]];
        if |rows| > MAX_HISTORY_ROWS {
          rows := rows[1..];
        }
        i := i + 1;
      }
      assert more[..|more|] == more;
    }
  }

  /** `clamp_offset`: the history's length is taken as 32 bits. */
  function ClampOffset(historyLen: nat, offset: u32): u32 {
    Min(offset, historyLen % 0x1_0000_0000)
  }

  function BlankPod(live: PodGrid): PodCell {
    PodCell(32, live.defaultFg, live.defaultBg, 0)
  }

  function Blanks(n: nat, blank: PodCell): (r: PodLine)
    ensures |r| == n
  {
    seq(n, _ => blank)
  }

  /** A row cut or padded to the width. */
  function Fit(row: PodLine, cols: nat, blank: PodCell): (r: PodLine)
    ensures |r| == cols
  {
    if |row| >= cols then row[..cols] else row + Blanks(cols - |row|, blank)
  }

  /** The live rows that are whole. */
  function LiveRows(live: PodGrid, n: nat): (rows: seq<PodLine>)
    ensures |live.cells| >= n * live.cols ==> |rows| == n
    decreases n
  {
    if n == 0 then []
    else
      MulMono(n - 1, n, live.cols);
      var rest, start := LiveRows(live, n - 1), (n - 1) * live.cols;
      if start + live.cols <= |live.cells| then rest + [live.cells[start..start + live.cols]] else rest
  }

  function StackRow(stack: seq<PodLine>, i: nat, live: PodGrid): (row: PodLine)
    ensures |row| == live.cols
  {
    if i < |stack| then Fit(stack[i], live.cols, BlankPod(live)) else Blanks(live.cols, BlankPod(live))
  }

  /** Rows `start..start + n` of a stack, concatenated. */
  function WindowCells(stack: seq<PodLine>, start: nat, n: nat, live: PodGrid): (cells: seq<PodCell>)
    ensures |cells| == n * live.cols
    decreases n
  {
    if n == 0 then []
    else
      assert n * live.cols == (n - 1) * live.cols + live.cols;
      WindowCells(stack, start, n - 1, live) + StackRow(stack, start + n - 1, live)
  }

  function Start(stackLen: nat, historyLen: nat, live: PodGrid, offset: u32): nat {
    SatSub(SatSub(stackLen, ClampOffset(historyLen, offset)), live.rows)
  }

  function Composed(history: seq<PodLine>, live: PodGrid, offset: u32): PodGrid {
    if offset == 0 || history == [] then live
    else
      var stack := history + LiveRows(live, live.rows);
      live.(cursorVisible := false, fullDamage := true, damageRow0 := 0, damageRow1 := SatSub(live.rows, 1),
            cells := WindowCells(stack, Start(|stack|, |history|, live, offset), live.rows, live))
  }

  /** `compose_viewport`. */
  method ComposeViewport(history: seq<PodLine>, live: PodGrid, offset: u32) returns (shown: PodGrid)
    ensures shown == Composed(history, live, offset)
  {
    hide WindowCells, LiveRows;
    if offset == 0 || history == [] {
      return live;
    }
    var below := Copied(history);
    var stack := StackLive(below, live);
    var end := SatSub(|stack|, ClampOffset(|history|, offset));
    var cells := PaintWindow(stack, SatSub(end, live.rows), live);
    return live.(cursorVisible := false, fullDamage := true, damageRow0 := 0, damageRow1 := SatSub(live.rows, 1),
                 cells := cells);
  }

  method Copied(history: seq<PodLine>) returns (stack: seq<PodLine>)
    ensures stack == history
  {
    stack := [];
    var h := 0;
    while h < |history|
      invariant 0 <= h <= |history| && stack == history[..h]
    {
      stack := stack + [history[h]];
      h := h + 1;
    }
  }

  /** The rows of the live grid on top of the history. */
  method StackLive(below: seq<PodLine>, live: PodGrid) returns (stack: seq<PodLine>)
    ensures stack == below + LiveRows(live, live.rows)
  {
    stack := below;
    var r := 0;
    while r < live.rows
      invariant 0 <= r <= live.rows && stack == below + LiveRows(live, r)
    {
      var start := r * live.cols;
      if start + live.cols <= |live.cells| {
        MulMono(0, r, live.cols);
        stack := stack + [live.cells[start..start + live.cols]];
      }
      r := r + 1;
    }
  }

  method PaintWindow(stack: seq<PodLine>, start: nat, live: PodGrid) returns (cells: seq<PodCell>)
    ensures cells == WindowCells(stack, start, live.rows, live)
  {
    cells := [];
    var i := start;
    while i < start + live.rows
      invariant start <= i <= start + live.rows && cells == WindowCells(stack, start, i - start, live)
    {
      ghost var before := cells;
      if i < |stack| {
        var row := stack[i];
        if |row| >= live.cols {
          cells := cells + row[..live.cols];
        } else {
          cells := cells + row;
          cells := cells + Blanks(live.cols - |row|, BlankPod(live));
        }
      } else {
        cells := cells + Blanks(live.cols, BlankPod(live));
      }
      assert cells == before + StackRow(stack, i, live);
      i := i + 1;
    }
  }

  // ---------------------------------------------------------------- what the window shows

  lemma {:induction false} LiveRowIs(live: PodGrid, n: nat, r: nat)
    requires |live.cells| >= n * live.cols && r < n
    ensures 0 <= r * live.cols && r * live.cols + live.cols <= |live.cells|
    ensures LiveRows(live, n)[r] == live.cells[r * live.cols..r * live.cols + live.cols]
    decreases n
  {
    RowInGrid(r, live.cols, n);
    MulMono(n - 1, n, live.cols);
    assert n * live.cols == (n - 1) * live.cols + live.cols;
    if r < n - 1 {
      LiveRowIs(live, n - 1, r);
    }
  }

  lemma {:induction false} WindowRow(stack: seq<PodLine>, start: nat, n: nat, live: PodGrid, r: nat)
    requires r < n
    ensures 0 <= r * live.cols && r * live.cols + live.cols <= n * live.cols
    ensures WindowCells(stack, start, n, live)[r * live.cols..r * live.cols + live.cols] == StackRow(stack, start + r, live)
    decreases n
  {
    RowInGrid(r, live.cols, n);
    var cols: nat := live.cols;
    assert n * cols == (n - 1) * cols + cols;
    var init, last := WindowCells(stack, start, n - 1, live), StackRow(stack, start + n - 1, live);
    var all := WindowCells(stack, start, n, live);
    assert all == init + last;
    if r < n - 1 {
      WindowRow(stack, start, n - 1, live, r);
      RowInGrid(r, cols, n - 1);
      assert all[r * cols..r * cols + cols] == init[r * cols..r * cols + cols];
    } else {
      assert all[r * cols..r * cols + cols] == last;
    }
  }

  /** A whole snapshot. */
  predicate WfPod(live: PodGrid) {
    |live.cells| == live.rows * live.cols
  }

  function PodRowOf(g: PodGrid, r: nat): PodLine
    requires WfPod(g) && r < g.rows
  {
    RowInGrid(r, g.cols, g.rows);
    g.cells[r * g.cols..r * g.cols + g.cols]
  }

  /** Row `i` of the history followed by the live screen, as wide as that. */
  function TapeRow(history: seq<PodLine>, live: PodGrid, i: nat): PodLine
    requires WfPod(live) && i < |history| + live.rows
  {
    if i < |history| then Fit(history[i], live.cols, BlankPod(live)) else PodRowOf(live, i - |history|)
  }

  lemma StackIsTape(history: seq<PodLine>, live: PodGrid, i: nat)
    requires WfPod(live) && i < |history| + live.rows
    ensures StackRow(history + LiveRows(live, live.rows), i, live) == TapeRow(history, live, i)
  {
    if i >= |history| {
      LiveRowIs(live, live.rows, i - |history|);
    }
  }

  lemma ComposedSize(history: seq<PodLine>, live: PodGrid, offset: u32)
    requires WfPod(live)
    ensures var shown := Composed(history, live, offset);
            WfPod(shown) && shown.rows == live.rows && shown.cols == live.cols
  {
  }

  /** At offset `k` the viewport is exactly the `rows`-high window over the
      history followed by the live screen that ends min(k, |history|) rows
      above the tail, each row cut or padded to the width. */
  lemma ShowsWindow(history: seq<PodLine>, live: PodGrid, offset: u32, r: nat)
    requires WfPod(live) && |history| <= MAX_HISTORY_ROWS && r < live.rows
    ensures WfPod(Composed(history, live, offset)) && Composed(history, live, offset).rows == live.rows
    ensures PodRowOf(Composed(history, live, offset), r)
         == TapeRow(history, live, |history| - Min(offset, |history|) + r)
  {
    ComposedSize(history, live, offset);
    var stack := history + LiveRows(live, live.rows);
    var start := |history| - Min(offset, |history|);
    if offset != 0 && history != [] {
      assert |stack| == |history| + live.rows;
      assert Start(|stack|, |history|, live, offset) == start;
      WindowRow(stack, start, live.rows, live, r);
      StackIsTape(history, live, start + r);
      hide TapeRow, StackRow, WindowCells, LiveRows;
    }
  }

  /** While the host looks at history the whole window is repainted and no
      cursor shows; at the bottom it is the live screen itself. */
  lemma HistoryIsStill(history: seq<PodLine>, live: PodGrid, offset: u32)
    requires WfPod(live) && |history| <= MAX_HISTORY_ROWS
    ensures var shown := Composed(history, live, offset);
            if offset == 0 || history == [] then shown == live
            else shown == live.(cursorVisible := false, fullDamage := true,
                                damageRow0 := 0, damageRow1 := Max(0, live.rows - 1), cells := shown.cells)
                 && |shown.cells| == live.cols * live.rows
  {
    hide WindowCells, LiveRows;
  }
}
