/** The emulator undoes the repaint printer: a cleared screen fed the printed
    bytes becomes the screen that was printed. */
module RepaintProof {
  import opened VtTypes
  import opened Grid
  import opened Repaint
  import opened RowDrawing
  import Arith
  import CsiFidelity
  import DamageProof
  import W = WidePairs
  import P = ParserSpec
  import S = ScreenSpec
  import E = EngineSpec

  // ---------------------------------------------------------------- renditions

  /** The pen after a list of SGR parameter lists. */
  function SgrPens(pen: Pen, ps: seq<seq<u16>>): Pen {
    if ps == [] then pen else S.ApplySgr(SgrPens(pen, ps[..|ps| - 1]), ps[|ps| - 1])
  }

  lemma {:induction false} SgrPensAppend(pen: Pen, a: seq<seq<u16>>, b: seq<seq<u16>>)
    ensures SgrPens(pen, a + b) == SgrPens(SgrPens(pen, a), b)
    decreases |b|
  {
    hide S.ApplySgr;
    if b == [] {
      assert a + b == a;
    } else {
      SgrPensAppend(pen, a, b[..|b| - 1]);
      assert (a + b)[..|a + b| - 1] == a + b[..|b| - 1];
    }
  }

  lemma SgrPensOne(pen: Pen, ps: seq<u16>)
    ensures SgrPens(pen, [ps]) == S.ApplySgr(pen, ps)
  {
    assert [ps][..0] == [];
  }

  /** One attribute turned on, or left alone. */
  lemma AttrPen(attrs: u16, n: u16, bit: u16, on: bool)
    requires (n == 1 && bit == 1) || (n == 4 && bit == 2) || (n == 7 && bit == 4)
    requires attrs < bit
    ensures SgrPens(PLAIN.(attrs := attrs), When(on, n)) == PLAIN.(attrs := if on then attrs + bit else attrs)
  {
    var pen := PLAIN.(attrs := attrs);
    if on {
      SgrPensOne(pen, [n]);
      assert S.SgrFrom(pen, [n], 0) == S.SgrFrom(S.SgrOne(pen, n), [n], 1);
      hide SgrPens;
      assert attrs / bit == 0;
    }
  }

  lemma ThreeBits(attrs: u16)
    requires attrs < 8
    ensures attrs == attrs % 2 + attrs / 2 % 2 * 2 + attrs / 4 % 2 * 4
  {
  }

  lemma AttrPens(attrs: u16)
    requires attrs < 8
    ensures SgrPens(PLAIN, AttrParams(attrs)) == PLAIN.(attrs := attrs)
  {
    hide SgrPens, When;
    var x, y, z: u16 := attrs % 2, attrs / 2 % 2, attrs / 4 % 2;
    ThreeBits(attrs);
    SgrPensAppend(PLAIN, When(x == 1, 1) + When(y == 1, 4), When(z == 1, 7));
    SgrPensAppend(PLAIN, When(x == 1, 1), When(y == 1, 4));
    AttrPen(0, 1, 1, x == 1);
    AttrPen(x, 4, 2, y == 1);
    AttrPen(x + y * 2, 7, 4, z == 1);
  }

  lemma ColorPens(pen: Pen, fg: bool, c: Color)
    ensures SgrPens(pen, ColorParams(fg, c)) == if c == Default then pen else S.WithColor(pen, fg, c)
  {
    if c != Default {
      var ns := ColorParams(fg, c)[0];
      assert ColorParams(fg, c) == [ns];
      SgrPensOne(pen, ns);
      hide SgrPens;
      if c.Rgb? {
        assert S.SgrFrom(pen, ns, 0) == S.SgrFrom(S.WithColor(pen, fg, c), ns, 5);
      } else if c.n >= 16 {
        assert S.SgrFrom(pen, ns, 0) == S.SgrFrom(S.WithColor(pen, fg, c), ns, 3);
      } else {
        assert S.SgrFrom(pen, ns, 0) == S.SgrFrom(S.SgrOne(pen, ns[0]), ns, 1);
      }
    }
  }

  /** From any pen the printed parameters select exactly the given one. */
  lemma PenPrinted(pen: Pen, to: Pen)
    requires to.attrs < 8
    ensures SgrPens(pen, PenParams(to)) == to
  {
    var attrs, fg, bg := AttrParams(to.attrs), ColorParams(true, to.fg), ColorParams(false, to.bg);
    SgrPensAppend(pen, RESET + attrs + fg, bg);
    SgrPensAppend(pen, RESET + attrs, fg);
    SgrPensAppend(pen, RESET, attrs);
    SgrPensOne(pen, [0]);
    AttrPens(to.attrs);
    var p := PLAIN.(attrs := to.attrs);
    ColorPens(p, true, to.fg);
    ColorPens(p.(fg := to.fg), false, to.bg);
    hide SgrPens, AttrParams, ColorParams;
  }

  lemma {:induction false} SgrActsDraw(t: Tables, c: S.Core, ps: seq<seq<u16>>)
    requires S.Wf(c)
    ensures S.StepAllCore(t, c, SgrActs(ps)) == c.(pen := SgrPens(c.pen, ps))
    decreases |ps|
  {
    var acts := SgrActs(ps);
    if ps != [] {
      var init, ns := ps[..|ps| - 1], ps[|ps| - 1];
      SgrActsDraw(t, c, init);
      var d := c.(pen := SgrPens(c.pen, init));
      assert acts == SgrActs(init) + [Csi(ns, [], false, 0x6d)];
      S.StepAllCoreAppend(t, c, SgrActs(init), [Csi(ns, [], false, 0x6d)]);
      S.StepOneCore(t, d, Csi(ns, [], false, 0x6d));
    }
    hide S.Wf, S.ApplySgr;
  }


  // ---------------------------------------------------------------- the emulator while it draws

  function CanvasGrid(rows: nat, cols: nat, done: Rows, row: Row): (g: Rows)
    requires |done| < rows && |row| == cols && Shaped(done, cols, |done|)
    ensures Shaped(g, cols, rows) && g[|done|] == row
  {
    done + [row] + BlankGrid(cols, rows - |done| - 1, Default)
  }

  /** `base` in all that drawing does not touch, with rows finished and one
      being drawn. */
  ghost function Canvas(base: S.Core, done: Rows, s: Sketch, pen: Pen): (c: S.Core)
    requires S.Wf(base) && |done| < base.rows && Shaped(done, base.cols, |done|) && WfSketch(s, base.cols, |done|)
    ensures S.Wf(c)
  {
    base.(grid := CanvasGrid(base.rows, base.cols, done, s.row),
          cursorRow := |done|, cursorCol := Min(s.at, base.cols - 1), pendingWrap := s.at == base.cols,
          pen := pen, cluster := s.cluster, truncated := s.truncated)
  }

  /** With the next row still blank. */
  ghost function Unmarked(base: S.Core, done: Rows, truncated: u32): (c: S.Core)
    requires S.Wf(base) && |done| < base.rows && Shaped(done, base.cols, |done|)
    ensures S.Wf(c)
  {
    Canvas(base, done, NoSketch(base.cols, truncated), PLAIN)
  }

  /** A character that joins: the whole state. */
  lemma JoinWrites(t: Tables, c: S.Core, s: Sketch, ch: u32)
    requires S.Wf(c) && S.Joins(t, s.cluster, ch) && WfSketch(s, c.cols, c.cursorRow) && s.at < c.cols
    requires c.cluster == s.cluster && c.truncated == s.truncated && c.grid[c.cursorRow] == s.row
    requires c.cursorCol == s.at && !c.pendingWrap && c.autowrap
    ensures var d := InkJoined(s, ch, c.pen);
            d.at <= c.cols &&
            S.WriteChar(t, c, ch) == c.(grid := c.grid[c.cursorRow := d.row], cursorCol := Min(d.at, c.cols - 1),
                                        pendingWrap := d.at == c.cols, cluster := d.cluster, truncated := d.truncated)
  {
    hide S.ExpandedRow;
    assert c.grid[c.cursorRow := s.row] == c.grid;
  }

  /** A character that starts a cluster: the whole state. */
  lemma PlaceWrites(t: Tables, c: S.Core, s: Sketch, ch: u32)
    requires S.Wf(c) && !S.Joins(t, s.cluster, ch) && s.at + S.ClusterWidth(t, ch) <= c.cols == |s.row|
    requires c.cluster == s.cluster && c.truncated == s.truncated && c.grid[c.cursorRow] == s.row
    requires c.cursorCol == s.at && !c.pendingWrap && c.autowrap
    ensures var d := Ink(t, s, c.cursorRow, ch, c.pen);
            d.at <= c.cols &&
            S.WriteChar(t, c, ch) == c.(grid := c.grid[c.cursorRow := d.row], cursorCol := Min(d.at, c.cols - 1),
                                        pendingWrap := d.at == c.cols, cluster := d.cluster, truncated := d.truncated)
  {
    hide S.GridsOk, S.PutRow;
    assert S.WrapIfNeeded(c, S.ClusterWidth(t, ch)) == c;
  }

  lemma CanvasUpdate(rows: nat, cols: nat, done: Rows, row: Row, row': Row)
    requires |done| < rows && |row| == cols == |row'| && Shaped(done, cols, |done|)
    ensures CanvasGrid(rows, cols, done, row)[|done| := row'] == CanvasGrid(rows, cols, done, row')
  {
  }

  lemma InkWrites(t: Tables, base: S.Core, done: Rows, s: Sketch, pen: Pen, ch: u32)
    requires S.Wf(base) && base.autowrap && |done| < base.rows && Shaped(done, base.cols, |done|)
    requires WfSketch(s, base.cols, |done|) && s.at + S.ClusterWidth(t, ch) <= base.cols
    ensures WfSketch(Ink(t, s, |done|, ch, pen), base.cols, |done|)
    ensures S.WriteChar(t, Canvas(base, done, s, pen), ch) == Canvas(base, done, Ink(t, s, |done|, ch, pen), pen)
  {
    hide S.Wf, S.WriteChar, InkJoined, S.PutRow, CanvasGrid;
    var c, d := Canvas(base, done, s, pen), Ink(t, s, |done|, ch, pen);
    InkKeeps(t, s, base.cols, |done|, ch, pen);
    CanvasUpdate(base.rows, base.cols, done, s.row, d.row);
    if S.Joins(t, s.cluster, ch) {
      JoinWrites(t, c, s, ch);
    } else {
      PlaceWrites(t, c, s, ch);
    }
  }

  lemma DrawPen(t: Tables, c: S.Core, pen: Pen)
    requires S.Wf(c) && pen.attrs < 8
    ensures S.StepAllCore(t, c, if pen != c.pen then SgrActs(PenParams(pen)) else []) == c.(pen := pen)
  {
    SgrActsDraw(t, c, PenParams(pen));
    PenPrinted(c.pen, pen);
    hide S.Wf, SgrPens, PenParams;
  }

  /** One printed cell: its rendition, then its character. */
  lemma DrawCell(t: Tables, base: S.Core, done: Rows, row: Row, n: nat, truncated: u32)
    requires S.Wf(base) && base.autowrap && |done| < base.rows && Shaped(done, base.cols, |done|)
    requires Drawable(t, row) && n < |row| == base.cols
    ensures S.StepAllCore(t, Canvas(base, done, Drawn(t, row, |done|, truncated, n), PenAfter(row, n)),
                          CellActs(PenAfter(row, n), row[n]))
         == Canvas(base, done, Drawn(t, row, |done|, truncated, n + 1), PenAfter(row, n + 1))
  {
    var s, pen := Drawn(t, row, |done|, truncated, n), CellPen(row[n]);
    var c := Canvas(base, done, s, PenAfter(row, n));
    FilledFits(row, n);
    if IsTail(row[n]) {
      TailPen(row, n);
    } else {
      InkFits(t, row, s, |done|, n);
      DrawPen(t, c, pen);
      InkWrites(t, base, done, s, pen, row[n].codepoint);
      var change := if pen != c.pen then SgrActs(PenParams(pen)) else [];
      S.StepAllCoreAppend(t, c, change, [Print(row[n].codepoint)]);
      S.StepOneCore(t, c.(pen := pen), Print(row[n].codepoint));
    }
    hide S.StepAllCore, S.WriteChar, PenParams, S.Wf, WfSketch, Ink, W.Paired, IsTail, CanvasGrid, Filled;
  }

  /** A tail has its lead's rendition. */
  lemma TailPen(row: Row, n: nat)
    requires 0 < n < |row| && W.Pair(row, n - 1)
    ensures CellPen(row[n]) == PenAfter(row, n) == PenAfter(row, n + 1)
  {
    assert (row[n - 1].attrs + 8) % 8 == row[n - 1].attrs % 8;
  }

  lemma {:induction false} DrawRow(t: Tables, base: S.Core, done: Rows, row: Row, n: nat, truncated: u32)
    requires S.Wf(base) && base.autowrap && |done| < base.rows && Shaped(done, base.cols, |done|)
    requires Drawable(t, row) && n <= |row| == base.cols
    ensures S.StepAllCore(t, Unmarked(base, done, truncated), RowActs(row, n))
         == Canvas(base, done, Drawn(t, row, |done|, truncated, n), PenAfter(row, n))
  {
    hide Canvas, S.Wf, Drawable, CellActs, WfSketch, Unmarked, Drawn, PenAfter;
    if n == 0 {
      DrawNothing(t, base, done, row, truncated);
    } else {
      DrawRow(t, base, done, row, n - 1, truncated);
      DrawCell(t, base, done, row, n - 1, truncated);
      S.StepAllCoreAppend(t, Unmarked(base, done, truncated), RowActs(row, n - 1),
                          CellActs(PenAfter(row, n - 1), row[n - 1]));
    }
  }

  lemma DrawNothing(t: Tables, base: S.Core, done: Rows, row: Row, truncated: u32)
    requires S.Wf(base) && |done| < base.rows && Shaped(done, base.cols, |done|)
    requires Drawable(t, row) && |row| == base.cols
    ensures Unmarked(base, done, truncated) == Canvas(base, done, Drawn(t, row, |done|, truncated, 0), PenAfter(row, 0))
  {
    hide S.Wf, Drawable, CanvasGrid;
  }

  lemma ReturnStep(t: Tables, c: S.Core)
    requires S.Wf(c)
    ensures S.StepAllCore(t, c, [Execute(0x0d)]) == c.(pendingWrap := false, cluster := None, cursorCol := 0)
  {
    S.StepOneCore(t, c, Execute(0x0d));
    hide S.StepAllCore, S.GridsOk;
  }

  lemma FeedStep(t: Tables, c: S.Core)
    requires S.Wf(c) && c.cursorRow < c.scrollBottom
    ensures S.StepAllCore(t, c, [Execute(0x0a)])
         == c.(pendingWrap := false, cluster := None, cursorRow := c.cursorRow + 1)
  {
    S.StepOneCore(t, c, Execute(0x0a));
    hide S.StepAllCore, S.GridsOk;
  }

  lemma ResetPen(t: Tables, c: S.Core)
    requires S.Wf(c)
    ensures S.StepAllCore(t, c, [Csi([0], [], false, 0x6d)]) == c.(pen := PLAIN)
  {
    S.StepOneCore(t, c, Csi([0], [], false, 0x6d));
    hide S.Wf, S.StepAllCore;
    assert S.ApplySgr(c.pen, [0]) == PLAIN;
  }

  /** CR, LF and a reset, above the bottom of the scroll region. */
  lemma NextLineSteps(t: Tables, c: S.Core)
    requires S.Wf(c) && c.cursorRow < c.scrollBottom
    ensures S.StepAllCore(t, c, NEXT_LINE)
         == c.(pendingWrap := false, cluster := None, cursorCol := 0, cursorRow := c.cursorRow + 1, pen := PLAIN)
  {
    hide S.StepAllCore, S.Wf;
    assert [Execute(0x0d)] + [Execute(0x0a)] == [Execute(0x0d), Execute(0x0a)];
    S.StepAllCoreAppend(t, c, [Execute(0x0d)] + [Execute(0x0a)], [Csi([0], [], false, 0x6d)]);
    S.StepAllCoreAppend(t, c, [Execute(0x0d)], [Execute(0x0a)]);
    ReturnStep(t, c);
    var d := S.StepAllCore(t, c, [Execute(0x0d)]);
    FeedStep(t, d);
    ResetPen(t, S.StepAllCore(t, d, [Execute(0x0a)]));
  }

  lemma NextRow(t: Tables, base: S.Core, done: Rows, s: Sketch, pen: Pen)
    requires S.Wf(base) && base.scrollBottom == base.rows - 1 && |done| + 1 < base.rows
    requires Shaped(done, base.cols, |done|) && WfSketch(s, base.cols, |done|)
    ensures S.StepAllCore(t, Canvas(base, done, s, pen), NEXT_LINE)
         == Unmarked(base, done + [s.row], s.truncated)
  {
    NextLineSteps(t, Canvas(base, done, s, pen));
    assert Shaped(done + [s.row], base.cols, |done| + 1);
    assert CanvasGrid(base.rows, base.cols, done, s.row)
        == CanvasGrid(base.rows, base.cols, done + [s.row], BlankRow(base.cols, Default));
    hide CanvasGrid, S.StepAllCore, S.Wf, NEXT_LINE;
  }

  /** What becomes of the first `n` rows of a grid, and the count of scalars
      that did not fit their cluster. */
  ghost function Redrawn(t: Tables, g: Rows, cols: u16, n: u16, truncated: u32): (d: (Rows, u32))
    requires AllDrawable(t, g) && Shaped(g, cols, |g|) && n <= |g|
    ensures Shaped(d.0, cols, n)
  {
    if n == 0 then ([], truncated)
    else
      var d := Redrawn(t, g, cols, n - 1, truncated);
      var s := Drawn(t, g[n - 1], n - 1, d.1, InkEnd(g[n - 1]));
      (d.0 + [s.row], s.truncated)
  }

  /** Everything above row `n`, each row ended by a new line. */
  lemma {:induction false} DrawLines(t: Tables, base: S.Core, g: Rows, n: u16)
    requires S.Wf(base) && base.autowrap && base.scrollBottom == base.rows - 1
    requires Shaped(g, base.cols, base.rows) && AllDrawable(t, g) && n < base.rows
    ensures var d := Redrawn(t, g, base.cols, n, base.truncated);
            S.StepAllCore(t, Unmarked(base, [], base.truncated), GridActs(g, n))
            == Unmarked(base, d.0, d.1)
  {
    hide Unmarked, S.Wf, Drawable, RowActs, InkEnd, WfSketch, Drawn;
    if n > 0 {
      var d, row := Redrawn(t, g, base.cols, n - 1, base.truncated), g[n - 1];
      DrawLines(t, base, g, n - 1);
      DrawLine(t, base, d.0, row, d.1);
      var start := Unmarked(base, [], base.truncated);
      S.StepAllCoreAppend(t, start, GridActs(g, n - 1) + RowActs(row, InkEnd(row)), NEXT_LINE);
      S.StepAllCoreAppend(t, start, GridActs(g, n - 1), RowActs(row, InkEnd(row)));
    }
  }

  /** One row and the new line after it. */
  lemma DrawLine(t: Tables, base: S.Core, done: Rows, row: Row, truncated: u32)
    requires S.Wf(base) && base.autowrap && base.scrollBottom == base.rows - 1 && |done| + 1 < base.rows
    requires Shaped(done, base.cols, |done|) && Drawable(t, row) && |row| == base.cols
    ensures var s, n := Drawn(t, row, |done|, truncated, InkEnd(row)), InkEnd(row);
            S.StepAllCore(t, S.StepAllCore(t, Unmarked(base, done, truncated), RowActs(row, n)),
                          NEXT_LINE)
            == Unmarked(base, done + [s.row], s.truncated)
  {
    hide Canvas, Unmarked, S.Wf, Drawable, RowActs, InkEnd, WfSketch, S.StepAllCore, Drawn;
    DrawRow(t, base, done, row, InkEnd(row), truncated);
    NextRow(t, base, done, Drawn(t, row, |done|, truncated, InkEnd(row)), PenAfter(row, InkEnd(row)));
  }

  /** The pen a printed grid ends with. */
  function LastPen(g: Rows): Pen
    requires |g| > 0
  {
    PenAfter(g[|g| - 1], InkEnd(g[|g| - 1]))
  }

  /** `base` showing a grid, wherever the cursor is left. */
  ghost predicate Shows(c: S.Core, base: S.Core, g: Rows, truncated: u32, pen: Pen) {
    c == base.(grid := g, cursorRow := c.cursorRow, cursorCol := c.cursorCol, pendingWrap := c.pendingWrap,
               pen := pen, cluster := c.cluster, truncated := truncated)
  }

  /** The last row is not followed by a new line. */
  lemma LastActs(g: Rows)
    requires |g| > 0
    ensures var row := g[|g| - 1]; GridActs(g, |g|) == GridActs(g, |g| - 1) + RowActs(row, InkEnd(row))
  {
    hide RowActs, InkEnd;
    var row := g[|g| - 1];
    assert GridActs(g, |g| - 1) + RowActs(row, InkEnd(row)) + [] == GridActs(g, |g| - 1) + RowActs(row, InkEnd(row));
  }

  lemma DrawGrid(t: Tables, base: S.Core, g: Rows)
    returns (c: S.Core)
    requires S.Wf(base) && base.autowrap && base.scrollBottom == base.rows - 1
    requires Shaped(g, base.cols, base.rows) && AllDrawable(t, g)
    ensures S.Wf(c)
    ensures c == S.StepAllCore(t, Unmarked(base, [], base.truncated), GridActs(g, |g|))
    ensures var d := Redrawn(t, g, base.cols, base.rows, base.truncated);
            Shows(c, base, d.0, d.1, LastPen(g))
  {
    assert base.rows > 0;
    hide S.Wf, Drawable, RowActs, GridActs, InkEnd, WfSketch, S.StepAllCore, Drawn, Canvas, Unmarked, Redrawn, Shows;
    var last: u16 := base.rows - 1;
    var row, n := g[last], InkEnd(g[last]);
    var start := Unmarked(base, [], base.truncated);
    var d := Redrawn(t, g, base.cols, last, base.truncated);
    LastActs(g);
    DrawLines(t, base, g, last);
    DrawRow(t, base, d.0, row, n, d.1);
    S.StepAllCoreAppend(t, start, GridActs(g, last), RowActs(row, n));
    c := Canvas(base, d.0, Drawn(t, row, last, d.1, n), PenAfter(row, n));
    LastCanvas(t, base, g);
  }

  /** With its last row drawn the canvas shows the redrawn grid. */
  lemma LastCanvas(t: Tables, base: S.Core, g: Rows)
    requires S.Wf(base) && Shaped(g, base.cols, base.rows) && AllDrawable(t, g)
    ensures var last, d := base.rows - 1, Redrawn(t, g, base.cols, base.rows - 1, base.truncated);
            var s, all := Drawn(t, g[last], last, d.1, InkEnd(g[last])), Redrawn(t, g, base.cols, base.rows, base.truncated);
            Shows(Canvas(base, d.0, s, LastPen(g)), base, all.0, all.1, LastPen(g))
  {
    hide S.Wf, Drawable, InkEnd, WfSketch, Drawn, LastPen;
  }

  /** A grid comes out as it was exactly when each row does. */
  lemma {:induction false} GridRebuilt(t: Tables, g: Rows, cols: u16, n: u16, truncated: u32)
    requires AllDrawable(t, g) && Shaped(g, cols, |g|) && n <= |g|
    ensures var d := Redrawn(t, g, cols, n, truncated);
            (d.0 == g[..n] <==> Faithful(t, g[..n])) && (d.0 == g[..n] ==> d.1 == truncated)
  {
    hide Drawable, FaithfulRow, InkEnd, WfSketch, Drawn;
    if n > 0 {
      hide Faithful;
      var m: u16 := n - 1;
      var d := Redrawn(t, g, cols, m, truncated);
      GridRebuilt(t, g, cols, m, truncated);
      RowRebuilt(t, g[m], m, d.1);
      assert g[..n] == g[..m] + [g[m]];
      var s := Drawn(t, g[m], m, d.1, InkEnd(g[m]));
      RowPushed(t, d.0, g[..m], s.row, g[m]);
    }
  }

  /** One row more, drawn and meant. */
  lemma RowPushed(t: Tables, drawn: Rows, g: Rows, x: Row, row: Row)
    requires |drawn| == |g| && (drawn == g <==> Faithful(t, g)) && (x == row <==> FaithfulRow(t, row))
    ensures drawn + [x] == g + [row] <==> drawn == g && x == row
    ensures drawn + [x] == g + [row] <==> Faithful(t, g + [row])
  {
    hide FaithfulRow;
    LastOf(drawn, x, g, row);
    FaithfulPush(t, g, row);
    hide Faithful;
  }

  lemma LastOf(a: Rows, x: Row, b: Rows, y: Row)
    requires |a| == |b|
    ensures a + [x] == b + [y] <==> a == b && x == y
  {
    if a + [x] == b + [y] {
      assert (a + [x])[..|a|] == a && (b + [y])[..|a|] == b;
      assert (a + [x])[|a|] == x && (b + [y])[|a|] == y;
    }
  }

  lemma FaithfulPush(t: Tables, g: Rows, row: Row)
    ensures Faithful(t, g + [row]) <==> Faithful(t, g) && FaithfulRow(t, row)
  {
    hide FaithfulRow;
    var h := g + [row];
    assert h[|g|] == row;
    assert forall r :: 0 <= r < |g| ==> h[r] == g[r];
  }

  // ---------------------------------------------------------------- the whole screen

  /** A screen as a reset leaves it, whatever its modes, its palette, its saved
      cursors and its foreground. */
  ghost predicate Cleared(c: S.Core) {
    && S.Wf(c)
    && c.grid == BlankGrid(c.cols, c.rows, Default)
    && c.cursorCol == 0 && c.cursorRow == 0 && !c.pendingWrap && c.cluster == None
    && c.autowrap && c.cursorVisible && !c.inAlt
    && c.scrollTop == 0 && c.scrollBottom == c.rows - 1
    && c.pen.bg == Default
  }

  lemma NewIsCleared(t: Tables, cols: u16, rows: u16)
    requires cols > 0 && rows > 0 && WfPalette(t.palette)
    ensures Cleared(S.NewCore(t, cols, rows))
  {
  }

  function Base(c: S.Core, inAlt: bool): (b: S.Core)
    requires S.Wf(c)
    ensures S.Wf(b)
  {
    if inAlt then S.SaveScreen(c, true) else c
  }

  lemma PrivateStep(t: Tables, c: S.Core, mode: u16, on: bool)
    requires S.Wf(c)
    ensures S.StepAllCore(t, c, [PrivateAct(mode, on)]) == S.PrivateOne(c, mode, on)
  {
    S.StepOneCore(t, c, PrivateAct(mode, on));
    hide S.Wf, S.StepAllCore, S.PrivateOne;
    assert S.PrivateModes(c, [mode], 0, on) == c;
  }

  lemma EnterAltClears(c: S.Core)
    requires Cleared(c)
    ensures S.PrivateOne(c, 1049, true) == Base(c, true)
  {
    hide S.GridsOk;
  }

  lemma DrawHead(t: Tables, c: S.Core, inAlt: bool)
    requires Cleared(c)
    ensures S.StepAllCore(t, c, HeadActs(inAlt)) == Base(c, inAlt).(pen := PLAIN)
  {
    var first := if inAlt then [PrivateAct(1049, true)] else [];
    S.StepAllCoreAppend(t, c, first, [Csi([0], [], false, 0x6d)]);
    ResetPen(t, Base(c, inAlt));
    PrivateStep(t, c, 1049, true);
    EnterAltClears(c);
    hide S.Wf, S.PrivateOne, Base;
  }

  lemma StartDrawing(c: S.Core, inAlt: bool)
    requires Cleared(c)
    ensures Unmarked(Base(c, inAlt), [], Base(c, inAlt).truncated) == Base(c, inAlt).(pen := PLAIN)
  {
    assert CanvasGrid(c.rows, c.cols, [], BlankRow(c.cols, Default)) == BlankGrid(c.cols, c.rows, Default);
    hide CanvasGrid, S.GridsOk;
  }

  lemma DrawFoot(t: Tables, c: S.Core, row: u16, col: u16, visible: bool)
    requires S.Wf(c) && row < c.rows && col < c.cols && c.cursorVisible
    ensures S.StepAllCore(t, c, FootActs(row, col, visible))
         == c.(pendingWrap := false, cluster := None, cursorRow := row, cursorCol := col, cursorVisible := visible)
  {
    hide S.Wf, S.StepAllCore, S.StepCore, PrivateAct;
    var at := Csi([row + 1, col + 1], [], false, 0x48);
    var moved := S.SetCursor(c, row, col);
    assert at == W.Move(row + 1, col + 1);
    W.MoveStep(t, c, row + 1, col + 1);
    S.StepOneCore(t, c, at);
    HideStep(t, moved);
    S.StepAllCoreAppend(t, c, [at], if visible then [] else [PrivateAct(25, false)]);
    NoSteps(t, moved);
  }

  lemma HideStep(t: Tables, c: S.Core)
    requires S.Wf(c)
    ensures S.StepAllCore(t, c, [PrivateAct(25, false)]) == c.(cursorVisible := false)
  {
    hide S.Wf, S.StepAllCore;
    PrivateStep(t, c, 25, false);
  }

  lemma NoSteps(t: Tables, c: S.Core)
    requires S.Wf(c)
    ensures S.StepAllCore(t, c, []) == c
  {
    hide S.Wf;
  }

  /** What a repaint promises to rebuild. */
  predicate Rebuilt(c: S.Core, from: S.Core) {
    && c.cols == from.cols && c.rows == from.rows
    && c.grid == from.grid
    && c.cursorCol == from.cursorCol && c.cursorRow == from.cursorRow
    && c.cursorVisible == from.cursorVisible
    && c.inAlt == from.inAlt
  }

  /** What a repaint of `from` leaves of a cleared screen: the grid, the cursor,
      its visibility and the alternate flag of the other; the pen of the last
      inked cell of the other's last row; no pending wrap and no open cluster;
      behind an alternate screen, the cleared one and its cursor, saved; and
      for the rest its own. */
  function Painted(c: S.Core, from: S.Core): S.Core
    requires S.Wf(c) && S.Wf(from)
  {
    Base(c, from.inAlt).(
      grid := from.grid, cursorRow := from.cursorRow, cursorCol := from.cursorCol,
      cursorVisible := from.cursorVisible, pendingWrap := false, cluster := None, pen := LastPen(from.grid))
  }

  /** A cleared screen with this grid drawn on it. */
  function WithGrid(c: S.Core, from: S.Core, g: Rows, truncated: u32): S.Core
    requires S.Wf(c) && S.Wf(from)
  {
    Painted(c, from).(grid := g, truncated := truncated)
  }

  /** What the printed actions make of a cleared screen. */
  lemma DrawScreen(t: Tables, c: S.Core, from: S.Core)
    requires Cleared(c) && S.Wf(from) && c.cols == from.cols && c.rows == from.rows && AllDrawable(t, from.grid)
    ensures var d := Redrawn(t, from.grid, c.cols, c.rows, c.truncated);
            S.StepAllCore(t, c, RepaintActs(from)) == WithGrid(c, from, d.0, d.1)
  {
    var base, g := Base(c, from.inAlt), from.grid;
    var head, body := HeadActs(from.inAlt), GridActs(g, |g|);
    var foot := FootActs(from.cursorRow, from.cursorCol, from.cursorVisible);
    BaseIs(c, from.inAlt);
    hide Base, Cleared, HeadActs, GridActs, FootActs, Unmarked, S.StepAllCore, S.GridsOk, Drawable, LastPen, InkEnd;
    DrawHead(t, c, from.inAlt);
    StartDrawing(c, from.inAlt);
    var drawn := DrawGrid(t, base, g);
    DrawFoot(t, drawn, from.cursorRow, from.cursorCol, from.cursorVisible);
    S.StepAllCoreAppend(t, c, head + body, foot);
    S.StepAllCoreAppend(t, c, head, body);
  }

  /** They make the screen that was printed exactly when every character
      stands alone. */
  lemma ScreenRebuilt(t: Tables, c: S.Core, from: S.Core)
    requires Cleared(c) && S.Wf(from) && c.cols == from.cols && c.rows == from.rows && AllDrawable(t, from.grid)
    ensures Rebuilt(S.StepAllCore(t, c, RepaintActs(from)), from) <==> Faithful(t, from.grid)
    ensures Faithful(t, from.grid) ==> S.StepAllCore(t, c, RepaintActs(from)) == Painted(c, from)
  {
    DrawScreen(t, c, from);
    BaseIs(c, from.inAlt);
    GridRebuilt(t, from.grid, c.cols, c.rows, c.truncated);
    assert from.grid[..c.rows] == from.grid;
    hide Base, Cleared, RepaintActs, S.StepAllCore, Drawable, FaithfulRow, LastPen;
  }

  lemma BaseIs(c: S.Core, inAlt: bool)
    requires Cleared(c)
    ensures var b := Base(c, inAlt);
            b.cols == c.cols && b.rows == c.rows && b.autowrap && b.cursorVisible && b.scrollBottom == b.rows - 1
            && b.inAlt == inAlt && b.truncated == c.truncated
  {
  }

  /** The printed bytes are the printed actions, behind any idle parser. */
  lemma RepaintRuns(t: Tables, e: E.Engine, from: S.Core)
    requires E.Wf(e) && P.IsIdle(e.parser) && AllPrintable(from.grid)
    ensures E.Feed(t, e, RepaintBytes(from)).display.core == S.StepAllCore(t, e.display.core, RepaintActs(from))
  {
    ReadsRepaint(from);
    E.IdleIsNew(e.parser, RepaintBytes(from));
    E.CoreRuns(t, e.display, RepaintActs(from));
    hide RepaintActs, RepaintBytes, P.Run, S.StepAll, S.StepAllCore, S.Wf;
  }
}
