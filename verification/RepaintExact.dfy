/** Exactly which screens a repaint rebuilds: those in which every character
    stands alone. */
module RepaintExact {
  import opened VtTypes
  import opened Grid
  import opened Repaint
  import opened RowDrawing
  import opened CellInvariants
  import S = ScreenSpec
  import P = ParserSpec
  import E = EngineSpec
  import R = RepaintProof
  import W = WidePairs

  // ---------------------------------------------------------------- what a repaint can draw at all

  /** The actions a repaint consists of. */
  predicate Paints(a: Action) {
    || a.Print?
    || a == Execute(0x0d) || a == Execute(0x0a)
    || a == PrivateAct(1049, true) || a == PrivateAct(25, false)
    || (a.Csi? && !a.ignore && a.inters == [] && (a.fin == 0x6d || a.fin == 0x48))
  }

  ghost predicate AllPaint(acts: seq<Action>) {
    forall i :: 0 <= i < |acts| ==> Paints(acts[i])
  }

  lemma BothPaint(xs: seq<Action>, ys: seq<Action>)
    requires AllPaint(xs) && AllPaint(ys)
    ensures AllPaint(xs + ys)
  {
    hide Paints;
  }

  lemma CellPaints(last: Pen, c: Cell)
    ensures AllPaint(CellActs(last, c))
  {
    hide PenParams, CellPen;
  }

  lemma {:induction false} RowPaints(row: Row, n: nat)
    requires n <= |row|
    ensures AllPaint(RowActs(row, n))
  {
    hide AllPaint, CellActs, PenAfter;
    if n == 0 {
      NonePaint();
    } else {
      RowPaints(row, n - 1);
      CellPaints(PenAfter(row, n - 1), row[n - 1]);
      BothPaint(RowActs(row, n - 1), CellActs(PenAfter(row, n - 1), row[n - 1]));
    }
  }

  lemma {:induction false} GridPaints(g: Rows, n: nat)
    requires n <= |g|
    ensures AllPaint(GridActs(g, n))
  {
    hide RowActs, InkEnd, AllPaint;
    if n == 0 {
      NonePaint();
    } else {
      var row := RowActs(g[n - 1], InkEnd(g[n - 1]));
      GridPaints(g, n - 1);
      RowPaints(g[n - 1], InkEnd(g[n - 1]));
      BothPaint(GridActs(g, n - 1), row);
      NonePaint();
      BothPaint(GridActs(g, n - 1) + row, if n < |g| then NEXT_LINE else []);
    }
  }

  lemma NonePaint()
    ensures AllPaint([]) && AllPaint(NEXT_LINE)
  {
  }

  lemma RepaintPaints(c: S.Core)
    ensures AllPaint(RepaintActs(c))
  {
    var head, foot := HeadActs(c.inAlt), FootActs(c.cursorRow, c.cursorCol, c.cursorVisible);
    assert AllPaint(head) && AllPaint(foot);
    hide AllPaint, GridActs, HeadActs, FootActs;
    GridPaints(c.grid, |c.grid|);
    BothPaint(head, GridActs(c.grid, |c.grid|));
    BothPaint(head + GridActs(c.grid, |c.grid|), foot);
  }

  /** The open cluster's cell is no tail. */
  predicate OpenSound(c: S.Core)
    requires S.Wf(c)
  {
    c.cluster.Some? ==> !IsTail(c.grid[c.cluster.value.row][c.cluster.value.col])
  }

  /** A row of one cell has no tail. */
  lemma OneCell(g: Rows, r: nat)
    requires W.AllPaired(g) && r < |g| && |g[r]| == 1
    ensures !IsTail(g[r][0])
  {
    assert W.Paired(g[r]);
    W.KindOf(g[r], 0);
    hide IsTail, W.Paired;
  }

  lemma JoinKeepsOpen(c: S.Core, ch: u32)
    requires S.Wf(c) && OpenSound(c) && c.cluster.Some?
    ensures OpenSound(S.Expand(S.Append(c, ch))) && OpenSound(S.Append(c, ch))
  {
    var a := S.Append(c, ch);
    if S.Expands(a) {
      var cl := a.cluster.value;
      var row := c.grid[cl.row];
      var lead := Smash(row, cl.col + 1, c.pen.bg)[cl.col];
      assert (Sgr(lead.attrs) + WIDE_LEAD) / 16 == 0;
      hide Smash, S.GridsOk;
    }
  }

  lemma PlaceKeepsOpen(c: S.Core, ch: u32, width: u16)
    requires S.Wf(c) && 1 <= width <= 2 && (c.cursorCol + width > c.cols ==> OpenSound(c))
    ensures OpenSound(S.Place(c, ch, width))
  {
    if c.cursorCol + width <= c.cols {
      assert (Sgr(c.pen.attrs) + WIDE_LEAD) / 16 == 0 && Sgr(c.pen.attrs) / 16 == 0;
      hide Smash, S.GridsOk;
    }
  }

  lemma WriteKeepsOpen(t: Tables, c: S.Core, ch: u32)
    requires S.Wf(c) && W.PairsOk(c) && OpenSound(c)
    ensures OpenSound(S.WriteChar(t, c, ch))
  {
    if S.ShouldAppend(t, c, ch) {
      JoinKeepsOpen(c, ch);
    } else {
      var width := S.ClusterWidth(t, ch);
      var d := S.WrapIfNeeded(c, width);
      W.WrapSound(c, width);
      if d.cursorCol + width > d.cols && d.cluster.Some? && c.autowrap && S.Wraps(c, width) {
        assert d.cols == 1;
        OneCell(d.grid, d.cluster.value.row);
      }
      hide W.PairsOk, S.GridsOk, S.Place, IsTail, S.Index;
      assert d.cluster == c.cluster;
      PlaceKeepsOpen(d, ch, width);
    }
  }

  lemma PrivateKeepsOpen(t: Tables, c: S.Core, mode: u16, on: bool)
    requires S.Wf(c) && OpenSound(c) && ((mode == 1049 && on) || mode == 25)
    ensures OpenSound(S.StepCore(t, c, PrivateAct(mode, on)))
  {
    assert S.PrivateModes(c, [mode], 0, on) == c;
    hide S.GridsOk, IsTail;
  }

  /** A line feed scrolls, but closes the cluster first. */
  lemma ControlKeepsOpen(t: Tables, c: S.Core, a: Action)
    requires S.Wf(c) && OpenSound(c) && Paints(a) && !a.Print?
    ensures OpenSound(S.StepCore(t, c, a))
  {
    if a.Csi? && a.inters != [] {
      hide S.Wf, S.StepCore, OpenSound;
      PrivateKeepsOpen(t, c, a.params[0], a.fin == 0x68);
    } else {
      hide S.GridsOk, S.ScrollUp, IsTail, S.ApplySgr;
    }
  }

  /** Painting splits no pair. */
  lemma PaintStep(t: Tables, c: S.Core, a: Action)
    requires S.Wf(c) && W.PairsOk(c) && OpenSound(c) && Paints(a)
    ensures W.PairsOk(S.StepCore(t, c, a)) && OpenSound(S.StepCore(t, c, a))
  {
    W.StepSound(t, c, a);
    hide W.PairsOk, S.Wf, OpenSound;
    if a.Print? {
      WriteKeepsOpen(t, c, a.c);
    } else {
      ControlKeepsOpen(t, c, a);
    }
  }

  lemma {:induction false} PaintRun(t: Tables, c: S.Core, acts: seq<Action>)
    requires S.Wf(c) && W.PairsOk(c) && OpenSound(c) && AllPaint(acts)
    ensures W.PairsOk(S.StepAllCore(t, c, acts))
    decreases acts
  {
    hide W.PairsOk, S.Wf, OpenSound, S.StepCore, Paints;
    if acts != [] {
      PaintStep(t, c, acts[0]);
      PaintRun(t, S.StepCore(t, c, acts[0]), acts[1..]);
    }
  }

  function Narrow(t: Tables): Cell -> bool {
    c => NarrowHere(t, c)
  }

  /** Whatever is printed, a wide character is never put into a single cell. */
  lemma {:induction false} NarrowRun(t: Tables, c: S.Core, acts: seq<Action>)
    requires !t.wide(32) && S.Wf(c) && CellsHold(Narrow(t), c)
    ensures CellsHold(Narrow(t), S.StepAllCore(t, c, acts))
    decreases acts
  {
    if acts != [] {
      NarrowStep(t, c, acts[0]);
      hide CellsHold, S.Wf, S.StepCore, Narrow;
      NarrowRun(t, S.StepCore(t, c, acts[0]), acts[1..]);
    }
  }

  lemma NarrowStep(t: Tables, c: S.Core, a: Action)
    requires !t.wide(32) && S.Wf(c) && CellsHold(Narrow(t), c)
    ensures CellsHold(Narrow(t), S.StepCore(t, c, a))
  {
    hide CellsHold, S.Wf, S.StepCore;
    assert Writes(t, Narrow(t), c, a);
    StepHolds(t, Narrow(t), c, a);
  }

  /** A repaint of anything is drawable. */
  lemma PaintedIsDrawable(t: Tables, c: S.Core, from: S.Core)
    requires R.Cleared(c) && !t.wide(32)
    ensures AllDrawable(t, S.StepAllCore(t, c, RepaintActs(from)).grid)
  {
    var d := S.StepAllCore(t, c, RepaintActs(from));
    W.BlankPaired(c.cols, Default);
    BlankRowHolds(Narrow(t), c.cols, Default);
    assert W.PairsOk(c) && CellsHold(Narrow(t), c) && OpenSound(c);
    RepaintPaints(from);
    PaintRun(t, c, RepaintActs(from));
    NarrowRun(t, c, RepaintActs(from));
    hide RepaintActs, S.StepAllCore, S.Wf;
    forall r | 0 <= r < |d.grid| ensures Drawable(t, d.grid[r]) {
      assert W.Paired(d.grid[r]) && RowHolds(Narrow(t), d.grid[r]);
      forall k | 0 <= k < |d.grid[r]| ensures NarrowHere(t, d.grid[r][k]) {
        assert Narrow(t)(d.grid[r][k]);
      }
    }
  }

  // ---------------------------------------------------------------- the repaint

  lemma FaithfulDraws(t: Tables, g: Rows)
    requires Faithful(t, g)
    ensures AllDrawable(t, g)
  {
    hide Drawable, Clean;
    assert forall r :: 0 <= r < |g| ==> FaithfulRow(t, g[r]);
  }

  /** The emulator undoes the repaint exactly on the faithful screens. Any
      cleared screen of the same size, behind an idle parser, is turned by the
      printed bytes into the screen that was printed (every cell with its
      colours and attributes, the cursor, its visibility and the alternate
      flag) if and only if every character stands alone; and then `Painted`
      says what the whole of it is. */
  lemma RepaintUndone(t: Tables, e: E.Engine, from: S.Core)
    requires E.Wf(e) && P.IsIdle(e.parser) && R.Cleared(e.display.core) && !t.wide(32)
    requires S.Wf(from) && AllPrintable(from.grid)
    requires e.display.core.cols == from.cols && e.display.core.rows == from.rows
    ensures var shown := E.Feed(t, e, RepaintBytes(from)).display.core;
            (R.Rebuilt(shown, from) <==> Faithful(t, from.grid))
            && (Faithful(t, from.grid) ==> shown == R.Painted(e.display.core, from))
  {
    R.RepaintRuns(t, e, from);
    ActsUndone(t, e.display.core, from);
    hide R.Rebuilt, R.Painted, RepaintActs, RepaintBytes, Faithful, S.StepAllCore;
  }

  lemma ActsUndone(t: Tables, c: S.Core, from: S.Core)
    requires R.Cleared(c) && !t.wide(32) && S.Wf(from) && c.cols == from.cols && c.rows == from.rows
    ensures var shown := S.StepAllCore(t, c, RepaintActs(from));
            (R.Rebuilt(shown, from) <==> Faithful(t, from.grid))
            && (Faithful(t, from.grid) ==> shown == R.Painted(c, from))
  {
    if AllDrawable(t, from.grid) {
      R.ScreenRebuilt(t, c, from);
    } else {
      PaintedIsDrawable(t, c, from);
      if Faithful(t, from.grid) {
        FaithfulDraws(t, from.grid);
      }
    }
    hide AllDrawable, Faithful, RepaintActs, S.StepAllCore, R.Painted, R.Cleared, S.Wf;
  }
}
