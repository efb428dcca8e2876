/** One row as the emulator draws it from the characters the repaint prints,
    and when it comes out as it was. */
module RowDrawing {
  import opened VtTypes
  import opened Grid
  import opened Repaint
  import W = WidePairs
  import S = ScreenSpec

  // ---------------------------------------------------------------- faithful rows

  /** A row in which what is printed fits where it came from: paired, and no
      wide character in a single cell. */
  ghost predicate Drawable(t: Tables, row: Row) {
    W.Paired(row) && forall k :: 0 <= k < |row| ==> NarrowHere(t, row[k])
  }

  /** A cell that is half of no pair does not hold a wide character. */
  predicate NarrowHere(t: Tables, c: Cell) {
    c.attrs < 8 ==> !t.wide(c.codepoint)
  }

  /** Printed again, the character of cell `k` joins the one before it. */
  predicate JoinsLeft(t: Tables, row: Row, k: nat)
    requires 0 < k < |row|
  {
    var ch, before := row[k].codepoint, row[k - 1].codepoint;
    S.IsContinuer(t, ch) || before == 0x200D || (S.IsRegionalIndicator(before) && S.IsRegionalIndicator(ch))
  }

  /** The character of cell `k` is printed into a cluster of its own, as wide
      as it was. */
  predicate StandsAlone(t: Tables, row: Row, k: nat)
    requires k < |row|
  {
    (W.Pair(row, k) ==> t.wide(row[k].codepoint)) && (k > 0 ==> !JoinsLeft(t, row, k))
  }

  ghost predicate Clean(t: Tables, row: Row, n: nat)
    requires n <= |row|
  {
    forall k :: 0 <= k < n && !IsTail(row[k]) ==> StandsAlone(t, row, k)
  }

  /** What a repaint rebuilds: up to the last ink every character stands alone. */
  ghost predicate FaithfulRow(t: Tables, row: Row) {
    Drawable(t, row) && Clean(t, row, InkEnd(row))
  }

  ghost predicate Faithful(t: Tables, g: Rows) {
    forall r :: 0 <= r < |g| ==> FaithfulRow(t, g[r])
  }

  ghost predicate AllDrawable(t: Tables, g: Rows) {
    forall r :: 0 <= r < |g| ==> Drawable(t, g[r])
  }

  /** How many cells are filled once the first `n` were printed: a lead brings
      its tail. */
  function Filled(row: Row, n: nat): nat
    requires n <= |row|
  {
    if n > 0 && IsLead(row[n - 1]) then n + 1 else n
  }

  /** The first `k` cells of a row, then blanks. */
  function PartOf(row: Row, k: nat): (r: Row)
    requires k <= |row|
    ensures |r| == |row|
  {
    row[..k] + BlankRow(|row| - k, Default)
  }

  lemma FilledFits(row: Row, n: nat)
    requires W.Paired(row) && n <= |row|
    ensures n <= Filled(row, n) <= |row|
    ensures n < |row| && !IsTail(row[n]) ==> Filled(row, n) == n && (W.Plain(row, n) || W.Pair(row, n))
    ensures n < |row| && !IsTail(row[n]) ==> Filled(row, n + 1) == if W.Pair(row, n) then n + 2 else n + 1
    ensures n < |row| && IsTail(row[n]) ==> W.Pair(row, n - 1) && Filled(row, n) == n + 1 == Filled(row, n + 1)
  {
    if n > 0 {
      W.KindOf(row, n - 1);
    }
    if n < |row| {
      W.KindOf(row, n);
    }
    W.Kinds(row, n - 2);
    W.Kinds(row, n - 1);
    W.Kinds(row, n);
    hide W.Paired, IsLead, IsTail;
  }

  // ---------------------------------------------------------------- one row, as the emulator draws it

  /** A row of which `at` columns are drawn, the open cluster, and the count of
      scalars that did not fit theirs. */
  datatype Sketch = Sketch(row: Row, at: nat, cluster: Option<OpenCluster>, truncated: u32)

  function NoSketch(cols: nat, truncated: u32): Sketch {
    Sketch(BlankRow(cols, Default), 0, None, truncated)
  }

  /** The open cluster is on this row `r` and behind `at`; while it is narrow
      it is the last column drawn. */
  predicate ClusterFits(s: Sketch, r: nat) {
    s.cluster.Some? ==>
      var cl := s.cluster.value;
      cl.row == r && cl.col < s.at <= |s.row| && (cl.width < 2 ==> cl.col + 1 == s.at && W.Plain(s.row, cl.col))
  }

  ghost predicate WfSketch(s: Sketch, cols: nat, r: nat) {
    && |s.row| == cols && s.at <= cols && ClusterFits(s, r)
    && forall k :: s.at <= k < cols ==> s.row[k] == Blank(Default)
  }

  /** A character printed on a sketch. */
  function Ink(t: Tables, s: Sketch, r: u16, ch: u32, pen: Pen): Sketch
    requires s.at + S.ClusterWidth(t, ch) <= |s.row| <= 0xFFFF
  {
    if S.Joins(t, s.cluster, ch) then InkJoined(s, ch, pen)
    else
      var width := S.ClusterWidth(t, ch);
      Sketch(S.PutRow(s.row, s.at, width, ch, pen), s.at + width,
             Some(OpenCluster(r, s.at, 1, ch == 0x200D, S.IsRegionalIndicator(ch), width)), s.truncated)
  }

  /** A character that joins; a regional indicator may widen its cluster. */
  function InkJoined(s: Sketch, ch: u32, pen: Pen): Sketch
    requires s.cluster.Some?
  {
    var cl := S.Appended(s.cluster.value, ch);
    var truncated := S.Counted(s.cluster.value, s.truncated);
    if S.IsRegionalIndicator(ch) && cl.width < 2 && cl.col + 1 < |s.row| then
      Sketch(S.ExpandedRow(s.row, cl.col, pen.bg), s.at + 1, Some(cl.(width := 2)), truncated)
    else Sketch(s.row, s.at, Some(cl), truncated)
  }

  lemma SmashPlain(row: Row, col: nat, bg: Color)
    requires col < |row| && !IsLead(row[col]) && !IsTail(row[col])
    ensures Smash(row, col, bg) == row
  {
  }

  /** On blanks nothing is smashed. */
  lemma PutOnBlanks(row: Row, at: nat, width: u16, ch: u32, pen: Pen)
    requires 1 <= width <= 2 && at + width <= |row| && forall k :: at <= k < |row| ==> row[k] == Blank(Default)
    ensures S.PutRow(row, at, width, ch, pen)
         == if width == 2 then row[at := Cell(ch, pen.fg, pen.bg, Sgr(pen.attrs) + WIDE_LEAD)]
                                  [at + 1 := Cell(ch, pen.fg, pen.bg, Sgr(pen.attrs) + WIDE_TAIL)]
            else row[at := Cell(ch, pen.fg, pen.bg, Sgr(pen.attrs))]
  {
    SmashPlain(row, at, pen.bg);
    if width == 2 {
      SmashPlain(row, at + 1, pen.bg);
    }
  }

  lemma ExpandOnBlanks(row: Row, col: nat, bg: Color)
    requires col + 1 < |row| && W.Plain(row, col) && row[col + 1] == Blank(Default)
    ensures var lead := row[col];
            S.ExpandedRow(row, col, bg)
            == row[col := lead.(attrs := lead.attrs + WIDE_LEAD)][col + 1 := lead.(attrs := lead.attrs + WIDE_TAIL)]
  {
    SmashPlain(row, col + 1, bg);
  }

  lemma InkKeeps(t: Tables, s: Sketch, cols: nat, r: u16, ch: u32, pen: Pen)
    requires WfSketch(s, cols, r) && s.at + S.ClusterWidth(t, ch) <= cols <= 0xFFFF
    ensures WfSketch(Ink(t, s, r, ch, pen), cols, r)
  {
    if S.Joins(t, s.cluster, ch) {
      JoinedKeeps(s, cols, r, ch, pen);
    } else {
      var width := S.ClusterWidth(t, ch);
      PutOnBlanks(s.row, s.at, width, ch, pen);
      hide S.PutRow;
    }
  }

  lemma JoinedKeeps(s: Sketch, cols: nat, r: nat, ch: u32, pen: Pen)
    requires WfSketch(s, cols, r) && s.cluster.Some? && s.at < cols
    ensures WfSketch(InkJoined(s, ch, pen), cols, r)
  {
    if s.cluster.value.width < 2 {
      ExpandOnBlanks(s.row, s.cluster.value.col, pen.bg);
      hide S.ExpandedRow;
    }
  }

  /** Ink only touches what is behind the cluster's first column, and makes no
      tail of anything drawn. */
  lemma InkLeavesTails(t: Tables, s: Sketch, cols: nat, r: u16, ch: u32, pen: Pen, j: nat)
    requires WfSketch(s, cols, r) && s.at + S.ClusterWidth(t, ch) <= cols <= 0xFFFF && j < s.at
    ensures IsTail(Ink(t, s, r, ch, pen).row[j]) == IsTail(s.row[j])
  {
    if S.Joins(t, s.cluster, ch) {
      if s.cluster.value.width < 2 {
        ExpandOnBlanks(s.row, s.cluster.value.col, pen.bg);
        hide S.ExpandedRow;
      }
    } else {
      PutOnBlanks(s.row, s.at, S.ClusterWidth(t, ch), ch, pen);
      hide S.PutRow;
    }
  }

  /** The sketch once the first `n` cells of a row were printed. */
  ghost function Drawn(t: Tables, row: Row, r: u16, truncated: u32, n: nat): (s: Sketch)
    requires Drawable(t, row) && n <= |row| <= 0xFFFF
    ensures WfSketch(s, |row|, r) && s.at <= Filled(row, n)
  {
    if n == 0 then NoSketch(|row|, truncated)
    else
      var s := Drawn(t, row, r, truncated, n - 1);
      FilledFits(row, n - 1);
      if IsTail(row[n - 1]) then s
      else
        InkFits(t, row, s, r, n - 1);
        Ink(t, s, r, row[n - 1].codepoint, CellPen(row[n - 1]))
  }

  /** The next character fits in the columns its cells had. */
  lemma InkFits(t: Tables, row: Row, s: Sketch, r: u16, n: nat)
    requires Drawable(t, row) && n < |row| <= 0xFFFF && !IsTail(row[n])
    requires WfSketch(s, |row|, r) && s.at <= Filled(row, n)
    ensures s.at <= n && s.at + S.ClusterWidth(t, row[n].codepoint) <= |row|
    ensures var d := Ink(t, s, r, row[n].codepoint, CellPen(row[n]));
            WfSketch(d, |row|, r) && d.at - s.at <= Filled(row, n + 1) - n && d.at <= Filled(row, n + 1)
  {
    FilledFits(row, n);
    assert NarrowHere(t, row[n]);
    InkKeeps(t, s, |row|, r, row[n].codepoint, CellPen(row[n]));
    hide W.Paired, S.PutRow, S.ExpandedRow, Filled, WfSketch;
    assert |s.row| == |row|;
  }

  // ---------------------------------------------------------------- what becomes of a row

  /** The open cluster remembers the last character printed. */
  ghost predicate Remembers(s: Sketch, row: Row, n: nat)
    requires n <= |row|
  {
    && (s.cluster.Some? <==> n > 0)
    && (n > 0 ==> s.cluster.value.afterZwj == (row[n - 1].codepoint == 0x200D)
                  && s.cluster.value.lastWasRi == S.IsRegionalIndicator(row[n - 1].codepoint))
  }

  lemma InkRemembers(t: Tables, s: Sketch, row: Row, n: nat, r: u16)
    requires n < |row| && s.at + S.ClusterWidth(t, row[n].codepoint) <= |s.row| <= 0xFFFF
    ensures Remembers(Ink(t, s, r, row[n].codepoint, CellPen(row[n])), row, n + 1)
  {
    hide S.PutRow, S.ExpandedRow, S.ClusterWidth, CellPen;
  }

  lemma {:induction false} DrawnRemembers(t: Tables, row: Row, r: u16, truncated: u32, n: nat)
    requires Drawable(t, row) && n <= |row| <= 0xFFFF
    ensures Remembers(Drawn(t, row, r, truncated, n), row, n)
  {
    if n > 0 {
      hide Drawable, WfSketch, IsTail, Filled, Ink;
      var s := Drawn(t, row, r, truncated, n - 1);
      DrawnRemembers(t, row, r, truncated, n - 1);
      FilledFits(row, n - 1);
      if !IsTail(row[n - 1]) {
        InkFits(t, row, s, r, n - 1);
        hide Remembers;
        InkRemembers(t, s, row, n - 1, r);
      }
    }
  }

  /** The next character joins exactly when its cell says so. */
  lemma JoinsAsWritten(t: Tables, row: Row, r: u16, truncated: u32, n: nat)
    requires Drawable(t, row) && n < |row| <= 0xFFFF
    ensures S.Joins(t, Drawn(t, row, r, truncated, n).cluster, row[n].codepoint) <==> n > 0 && JoinsLeft(t, row, n)
  {
    DrawnRemembers(t, row, r, truncated, n);
    hide Drawn;
  }

  /** Some drawn column has become a tail that was none. */
  ghost predicate TailTooMany(drawn: Row, row: Row, at: nat)
    requires at <= |drawn| == |row|
  {
    exists j :: 0 <= j < at && IsTail(drawn[j]) && !IsTail(row[j])
  }

  /** How far a drawn row can be from the row it came from: not at all, or for
      good. */
  ghost predicate Told(t: Tables, row: Row, truncated: u32, n: nat, s: Sketch)
    requires n <= |row| == |s.row| && s.at <= |row|
  {
    && (Clean(t, row, n) ==> s.at == Filled(row, n) && s.row == PartOf(row, s.at) && s.truncated == truncated)
    && (!Clean(t, row, n) ==> s.at < Filled(row, n) || TailTooMany(s.row, row, s.at))
  }

  lemma CleanNext(t: Tables, row: Row, n: nat)
    requires n < |row|
    ensures Clean(t, row, n + 1) <==> Clean(t, row, n) && (IsTail(row[n]) || StandsAlone(t, row, n))
  {
    hide StandsAlone, IsTail;
  }

  /** While every character stands alone the row comes out as it was. */
  lemma DrawsAlone(t: Tables, row: Row, s: Sketch, r: u16, n: nat)
    requires Drawable(t, row) && n < |row| <= 0xFFFF && !IsTail(row[n])
    requires s.at == n && s.row == PartOf(row, n) && !S.Joins(t, s.cluster, row[n].codepoint)
    requires W.Pair(row, n) ==> t.wide(row[n].codepoint)
    ensures Filled(row, n + 1) <= |row| && n + S.ClusterWidth(t, row[n].codepoint) == Filled(row, n + 1)
    ensures Ink(t, s, r, row[n].codepoint, CellPen(row[n])).row == PartOf(row, Filled(row, n + 1))
  {
    FilledFits(row, n);
    assert NarrowHere(t, row[n]);
    var width := S.ClusterWidth(t, row[n].codepoint);
    hide Drawable, IsTail, Filled;
    PutOnBlanks(s.row, n, width, row[n].codepoint, CellPen(row[n]));
    hide S.PutRow;
  }

  /** The first character that does not stand alone leaves its mark. */
  lemma Strays(t: Tables, row: Row, s: Sketch, r: u16, n: nat)
    requires Drawable(t, row) && n < |row| <= 0xFFFF && !IsTail(row[n])
    requires WfSketch(s, |row|, r) && s.at == n
    requires S.Joins(t, s.cluster, row[n].codepoint) || (W.Pair(row, n) && !t.wide(row[n].codepoint))
    ensures s.at + S.ClusterWidth(t, row[n].codepoint) <= |row|
    ensures var d := Ink(t, s, r, row[n].codepoint, CellPen(row[n]));
            |d.row| == |row| && d.at <= |row| && Filled(row, n + 1) <= |row|
            && (d.at < Filled(row, n + 1) || TailTooMany(d.row, row, d.at))
  {
    FilledFits(row, n);
    InkFits(t, row, s, r, n);
    hide Drawable, W.Paired, Filled;
    var d := Ink(t, s, r, row[n].codepoint, CellPen(row[n]));
    if S.Joins(t, s.cluster, row[n].codepoint) && d.at == n + 1 {
      ExpandOnBlanks(s.row, n - 1, row[n].bg);
      hide S.ExpandedRow;
      assert (s.row[n - 1].attrs + WIDE_TAIL) / 16 == 1;
      assert IsTail(d.row[n]);
    }
  }

  /** What was lost stays lost. */
  lemma StaysStrayed(t: Tables, row: Row, s: Sketch, r: u16, n: nat)
    requires Drawable(t, row) && n < |row| <= 0xFFFF && !IsTail(row[n])
    requires WfSketch(s, |row|, r) && s.at <= Filled(row, n) && (s.at < n || TailTooMany(s.row, row, s.at))
    ensures s.at + S.ClusterWidth(t, row[n].codepoint) <= |row|
    ensures var d := Ink(t, s, r, row[n].codepoint, CellPen(row[n]));
            |d.row| == |row| && d.at <= |row| && Filled(row, n + 1) <= |row|
            && (d.at < Filled(row, n + 1) || TailTooMany(d.row, row, d.at))
  {
    FilledFits(row, n);
    InkFits(t, row, s, r, n);
    var d := Ink(t, s, r, row[n].codepoint, CellPen(row[n]));
    hide Drawable, W.Paired, Filled, WfSketch, Ink;
    if TailTooMany(s.row, row, s.at) {
      var j :| 0 <= j < s.at && IsTail(s.row[j]) && !IsTail(row[j]);
      InkLeavesTails(t, s, |row|, r, row[n].codepoint, CellPen(row[n]), j);
    }
  }

  lemma ToldNext(t: Tables, row: Row, s: Sketch, r: u16, truncated: u32, n: nat)
    requires Drawable(t, row) && n < |row| <= 0xFFFF && !IsTail(row[n])
    requires WfSketch(s, |row|, r) && s.at <= Filled(row, n) && Told(t, row, truncated, n, s)
    requires S.Joins(t, s.cluster, row[n].codepoint) <==> n > 0 && JoinsLeft(t, row, n)
    ensures s.at + S.ClusterWidth(t, row[n].codepoint) <= |row|
    ensures var d := Ink(t, s, r, row[n].codepoint, CellPen(row[n]));
            |d.row| == |row| && d.at <= Filled(row, n + 1) <= |row| && Told(t, row, truncated, n + 1, d)
  {
    FilledFits(row, n);
    InkFits(t, row, s, r, n);
    CleanNext(t, row, n);
    hide Drawable, Clean, IsTail, Filled, JoinsLeft, PartOf, TailTooMany, WfSketch;
    if Clean(t, row, n) && StandsAlone(t, row, n) {
      DrawsAlone(t, row, s, r, n);
    } else {
      hide StandsAlone, Ink;
      if Clean(t, row, n) {
        StraysAt(t, row, s, r, n);
      } else {
        StaysStrayed(t, row, s, r, n);
      }
    }
  }

  lemma StraysAt(t: Tables, row: Row, s: Sketch, r: u16, n: nat)
    requires Drawable(t, row) && n < |row| <= 0xFFFF && !IsTail(row[n]) && !StandsAlone(t, row, n)
    requires WfSketch(s, |row|, r) && s.at == Filled(row, n)
    requires S.Joins(t, s.cluster, row[n].codepoint) <==> n > 0 && JoinsLeft(t, row, n)
    ensures s.at + S.ClusterWidth(t, row[n].codepoint) <= |row|
    ensures var d := Ink(t, s, r, row[n].codepoint, CellPen(row[n]));
            |d.row| == |row| && d.at <= |row| && Filled(row, n + 1) <= |row|
            && (d.at < Filled(row, n + 1) || TailTooMany(d.row, row, d.at))
  {
    FilledFits(row, n);
    hide Drawable, IsTail, Filled, JoinsLeft, TailTooMany, WfSketch, Ink, S.Joins;
    Strays(t, row, s, r, n);
  }

  lemma {:induction false} DrawnTold(t: Tables, row: Row, r: u16, truncated: u32, n: nat)
    requires Drawable(t, row) && n <= |row| <= 0xFFFF
    ensures Filled(row, n) <= |row| && Told(t, row, truncated, n, Drawn(t, row, r, truncated, n))
  {
    FilledFits(row, n);
    hide W.Paired, IsTail, Filled, TailTooMany, WfSketch, Ink, Clean, PartOf, Told;
    if n == 0 {
      NothingTold(t, row, truncated);
    } else {
      DrawnTold(t, row, r, truncated, n - 1);
      ToldCell(t, row, r, truncated, n - 1);
    }
  }

  lemma NothingTold(t: Tables, row: Row, truncated: u32)
    ensures Told(t, row, truncated, 0, NoSketch(|row|, truncated))
  {
  }

  lemma ToldCell(t: Tables, row: Row, r: u16, truncated: u32, n: nat)
    requires Drawable(t, row) && n < |row| <= 0xFFFF
    requires Filled(row, n) <= |row| && Told(t, row, truncated, n, Drawn(t, row, r, truncated, n))
    ensures Filled(row, n + 1) <= |row| && Told(t, row, truncated, n + 1, Drawn(t, row, r, truncated, n + 1))
  {
    var s := Drawn(t, row, r, truncated, n);
    FilledFits(row, n);
    CleanNext(t, row, n);
    if !IsTail(row[n]) {
      JoinsAsWritten(t, row, r, truncated, n);
      ToldNext(t, row, s, r, truncated, n);
      hide Told;
    }
    hide Drawable, Clean, IsTail, Filled, JoinsLeft, PartOf, TailTooMany, WfSketch, Ink, StandsAlone, S.Joins;
  }

  /** Past the last cell with ink the row is as blank as the screen. */
  lemma InkDraws(row: Row)
    requires W.Paired(row)
    ensures Filled(row, InkEnd(row)) == InkEnd(row) && PartOf(row, InkEnd(row)) == row
  {
    var n := InkEnd(row);
    FilledFits(row, n);
    if n < |row| {
      assert IsBlankCell(row[n]);
    }
    forall k | n <= k < |row| ensures row[k] == PartOf(row, n)[k] {
      assert IsBlankCell(row[k]);
    }
  }

  /** A row is drawn as it was exactly when every character up to its last ink
      stands alone. */
  lemma RowRebuilt(t: Tables, row: Row, r: u16, truncated: u32)
    requires Drawable(t, row) && |row| <= 0xFFFF
    ensures var d := Drawn(t, row, r, truncated, InkEnd(row));
            (d.row == row <==> FaithfulRow(t, row)) && (FaithfulRow(t, row) ==> d.truncated == truncated)
  {
    var n := InkEnd(row);
    var d := Drawn(t, row, r, truncated, n);
    DrawnTold(t, row, r, truncated, n);
    InkDraws(row);
    hide Drawn, Clean, Filled, PartOf, InkEnd, W.Paired;
    if !Clean(t, row, n) && d.at < n {
      assert IsBlankCell(d.row[n - 1]);
    }
  }
}
