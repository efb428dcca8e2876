/** What an action does beside the screen: the answers it owes the program, the
    rows it hands to the host's log, the rows it marks for repainting. */
module SideLaws {
  import opened VtTypes
  import opened Grid
  import opened Arith
  import opened ScreenSpec
  import opened CursorLaws
  import opened PrintLaws
  import opened Digits

  // ---------------------------------------------------------------- answers

  const ESC: u8 := 0x1b

  /** `ESC [`, then the text of an answer. */
  function Ascii(text: string): (bytes: seq<u8>)
    requires forall i :: 0 <= i < |text| ==> text[i] as int < 128
    ensures |bytes| == |text|
  {
    seq(|text|, i requires 0 <= i < |text| => text[i] as int)
  }

  /** What a request is answered with: primary and secondary device attributes,
      the status, the cursor's row and column counted from 1. */
  function Answer(c: Core, a: Action): Option<seq<u8>> {
    match a
    case Csi(params, inters, false, fin) =>
      var n := if |params| > 0 then params[0] else 0;
      if inters == [0x3e] && fin == 0x63 then Some([ESC] + Ascii("[>0;0;0c"))
      else if inters != [] then None
      else if fin == 0x63 && n == 0 then Some([ESC] + Ascii("[?6c"))
      else if fin == 0x6e && n == 5 then Some([ESC] + Ascii("[0n"))
      else if fin == 0x6e && n == 6 then
        Some([ESC] + Ascii("[") + Decimal(Min(c.cursorRow + 1, 65535)) + Ascii(";")
             + Decimal(Min(c.cursorCol + 1, 65535)) + Ascii("R"))
      else None
    case _ => None
  }

  /** An answer is queued whole, or counted as dropped: while answers are
      discarded, and when it would exceed 1024 bytes. */
  function Answered(f: Fx, bytes: Option<seq<u8>>): Fx {
    if bytes.None? then f
    else if !f.discard && |f.replies| + |bytes.value| <= 1024 then f.(replies := f.replies + bytes.value)
    else f.(dropped := if f.dropped == U32_MAX then U32_MAX else f.dropped + 1)
  }

  /** Everything but the damage and the log. */
  function Owed(f: Fx): Fx {
    f.(damage := NO_DAMAGE, scrolledOff := [])
  }

  lemma AnswersAre(t: Tables, c: Core, f: Fx, a: Action)
    requires Wf(c)
    ensures Owed(StepFx(t, c, f, a)) == Owed(Answered(f, Answer(c, a)))
  {
    if a.Csi? {
      CsiAnswers(t, c, f, a.params, a.inters, a.ignore, a.fin);
      hide Wf, StepFx, Answer;
    } else {
      hide Wf, WrapIfNeeded;
    }
  }

  lemma CsiAnswers(t: Tables, c: Core, f: Fx, params: seq<u16>, inters: seq<u8>, ignore: bool, fin: u8)
    requires Wf(c)
    ensures var a := Csi(params, inters, ignore, fin); Owed(StepFx(t, c, f, a)) == Owed(Answered(f, Answer(c, a)))
  {
    hide Wf, PrivateModesFx, EditFx, Decimal, Ascii, CursorReport, IsEdit;
    if ignore {
    } else if inters == [0x3f] && fin in {0x68, 0x6c} {
      PrivateOwes(c, f, params, |params|, fin == 0x68);
    } else if IsEdit(fin) && inters == [] {
      EditOwes(c, f, params, fin);
      EditsAnswerNothing(fin);
    } else {
      AnswerBytes(c);
    }
  }

  lemma EditsAnswerNothing(fin: u8)
    requires IsEdit(fin)
    ensures fin != 0x63 && fin != 0x6e
  {
  }

  lemma AnswerBytes(c: Core)
    ensures PRIMARY_DA == [ESC] + Ascii("[?6c") && SECONDARY_DA == [ESC] + Ascii("[>0;0;0c")
    ensures STATUS_OK == [ESC] + Ascii("[0n")
    ensures CursorReport(c.cursorRow, c.cursorCol)
         == [ESC] + Ascii("[") + Decimal(Min(c.cursorRow + 1, 65535)) + Ascii(";")
            + Decimal(Min(c.cursorCol + 1, 65535)) + Ascii("R")
  {
    assert Ascii("[") == [0x5b] && Ascii(";") == [0x3b] && Ascii("R") == [0x52];
    assert [ESC] + [0x5b] == [0x1b, 0x5b];
    hide Decimal;
  }

  lemma {:induction false} PrivateOwes(c: Core, f: Fx, params: seq<u16>, n: nat, on: bool)
    requires Wf(c) && n <= |params|
    ensures PrivateModesFx(c, f, params, n, on) == f.(damage := PrivateModesFx(c, f, params, n, on).damage)
  {
    if n > 0 {
      PrivateOwes(c, f, params, n - 1, on);
    }
    hide PrivateModes, Wf;
  }

  lemma {:induction false} ScrollOwes(c: Core, f: Fx, n: nat)
    requires Wf(c)
    ensures Owed(ScrollUpTimesFx(c, f, n)) == Owed(f)
  {
    if n > 0 {
      ScrollOwes(c, f, n - 1);
    }
    hide ScrollUpTimes;
  }

  lemma EditOwes(c: Core, f: Fx, params: seq<u16>, fin: u8)
    requires Wf(c) && IsEdit(fin)
    ensures Owed(EditFx(c, f, params, fin)) == Owed(f)
    ensures fin != 0x53 ==> EditFx(c, f, params, fin).scrolledOff == f.scrolledOff
  {
    var n, mode := CsiN(params, 0, 1), CsiN(params, 0, 0);
    ScrollOwes(c, f, n);
    var all, line, chars := DisplaySpan(c, mode), LineSpan(c, mode), CharSpan(c, n);
    MarkingOwes(c, f, all.0, all.1, n);
    MarkingOwes(c, f, line.0, line.1, n);
    MarkingOwes(c, f, chars.0, chars.1, n);
    hide ScrollUpTimesFx, DisplaySpan, LineSpan, CharSpan, CsiN, Wf, EraseFx, LinesFx, CellsFx;
  }

  lemma MarkingOwes(c: Core, f: Fx, from: nat, to: nat, n: u16)
    requires Wf(c) && to <= c.cols * c.rows
    ensures EraseFx(c, f, from, to) == f.(damage := EraseFx(c, f, from, to).damage)
    ensures LinesFx(c, f, n) == f.(damage := LinesFx(c, f, n).damage)
    ensures CellsFx(c, f, n) == f.(damage := CellsFx(c, f, n).damage)
  {
    hide Wf;
  }

  // ---------------------------------------------------------------- the log

  /** Line feeds and SU alone can hand rows to the log. */
  predicate MayLog(t: Tables, c: Core, a: Action) {
    match a
    case Print(ch) => !Joins(t, c.cluster, ch) && c.autowrap && (c.pendingWrap || c.cursorCol + WidthOf(t, ch) > c.cols)
    case Execute(b) => b in {0x0a, 0x0b, 0x0c}
    case Esc(_, b) => b == 0x44 || b == 0x45
    case Csi(_, inters, ignore, fin) => inters == [] && !ignore && fin == 0x53
    case Osc(_) => false
  }

  lemma OthersLogNothing(t: Tables, c: Core, f: Fx, a: Action)
    requires Wf(c) && !MayLog(t, c, a)
    ensures StepFx(t, c, f, a).scrolledOff == f.scrolledOff
  {
    match a
    case Csi(params, inters, ignore, fin) =>
      PrivateOwes(c, f, params, |params|, fin == 0x68);
      if IsEdit(fin) {
        EditOwes(c, f, params, fin);
      }
      hide Wf, PrivateModesFx, EditFx, CursorReport;
    case Print(ch) => hide GridsOk, WrapIfNeeded;
    case Execute(b) => hide Wf;
    case Esc(inters, b) => hide Wf;
    case Osc(_) => hide Wf;
  }

  // ---------------------------------------------------------------- damage

  /** The rows an action marks for repainting. */
  datatype Marks = NoRows | RowsFrom(first: u16, last: u16) | AllRows

  /** Marking rows widens the range of damaged rows to reach them, no further. */
  function Marked(d: Damage, m: Marks): Damage {
    if d.full || m.NoRows? then d
    else if m.AllRows? then d.(full := true)
    else if d.row0 > d.row1 then d.(row0 := m.first, row1 := m.last)
    else d.(row0 := Min(d.row0, m.first), row1 := Max(d.row1, m.last))
  }

  /** The same damage; of full damage no rows matter. */
  predicate SameDamage(d: Damage, e: Damage) {
    d.full == e.full && (!d.full ==> d == e)
  }

  predicate EntersOrLeaves(c: Core, params: seq<u16>, n: nat, on: bool)
    requires n <= |params|
  {
    (on || c.inAlt) && exists i :: 0 <= i < n && (params[i] == 1047 || params[i] == 1049)
  }

  /** What each action marks: the row printed on; the rows ED, EL and ECH reach;
      the cursor's row for ICH and DCH, and all rows from it to the bottom
      margin for IL and DL; and everything only when something scrolls, the
      whole screen is erased, or the other screen comes in. */
  function MarksOf(t: Tables, c: Core, a: Action): Marks
    requires Wf(c)
  {
    match a
    case Print(ch) =>
      if Joins(t, c.cluster, ch) then RowsFrom(c.cluster.value.row, c.cluster.value.row)
      else if MayLog(t, c, a) && c.cursorRow >= c.scrollBottom then AllRows
      else
        var at := Landing(t, c, ch);
        if at.cursorCol + WidthOf(t, ch) > c.cols then NoRows else RowsFrom(at.cursorRow, at.cursorRow)
    case Execute(_) => if MayLog(t, c, a) && c.cursorRow >= c.scrollBottom then AllRows else NoRows
    case Esc(_, b) =>
      if (MayLog(t, c, a) && c.cursorRow >= c.scrollBottom) || (b == 0x4d && c.cursorRow <= c.scrollTop) then AllRows
      else NoRows
    case Csi(params, inters, ignore, fin) =>
      if ignore then NoRows
      else if inters == [0x3f] && fin in {0x68, 0x6c} then
        (if EntersOrLeaves(c, params, |params|, fin == 0x68) then AllRows else NoRows)
      else if inters != [] then NoRows
      else EditMarks(c, params, fin)
    case Osc(_) => NoRows
  }

  function EditMarks(c: Core, params: seq<u16>, fin: u8): Marks
    requires Wf(c)
  {
    var mode := if |params| > 0 then params[0] else 0;
    if fin == 0x4a then
      (if mode == 0 then RowsFrom(c.cursorRow, c.rows - 1) else if mode == 1 then RowsFrom(0, c.cursorRow) else AllRows)
    else if fin in {0x4b, 0x58, 0x40, 0x50} then RowsFrom(c.cursorRow, c.cursorRow)
    else if fin in {0x4c, 0x4d} && c.scrollTop <= c.cursorRow <= c.scrollBottom then RowsFrom(c.cursorRow, c.scrollBottom)
    else if fin in {0x53, 0x54} then AllRows
    else NoRows
  }

  /** No action marks more, or less, than that. */
  lemma MarksAre(t: Tables, c: Core, f: Fx, a: Action)
    requires Wf(c)
    ensures SameDamage(StepFx(t, c, f, a).damage, Marked(f.damage, MarksOf(t, c, a)))
  {
    match a
    case Print(ch) => PrintMarks(t, c, f, ch);
    case Csi(params, inters, ignore, fin) =>
      PrivateMarks(c, f, params, |params|, fin == 0x68);
      if IsEdit(fin) {
        EditMarksAre(c, f, params, fin);
      }
      hide Wf, PrivateModesFx, EditFx, EditMarks, EntersOrLeaves;
    case Execute(b) => hide GridsOk;
    case Esc(inters, b) => hide GridsOk;
    case Osc(_) => hide Wf;
  }

  lemma PrintMarks(t: Tables, c: Core, f: Fx, ch: u32)
    requires Wf(c)
    ensures SameDamage(StepFx(t, c, f, Print(ch)).damage, Marked(f.damage, MarksOf(t, c, Print(ch))))
  {
    LandingIs(t, c, ch);
    hide WrapIfNeeded, GridsOk, NextLine;
  }

  lemma {:induction false} PrivateMarks(c: Core, f: Fx, params: seq<u16>, n: nat, on: bool)
    requires Wf(c) && n <= |params|
    ensures PrivateModes(c, params, n, on).inAlt == if EntersOrLeaves(c, params, n, on) then on else c.inAlt
    ensures SameDamage(PrivateModesFx(c, f, params, n, on).damage,
                       Marked(f.damage, if EntersOrLeaves(c, params, n, on) then AllRows else NoRows))
  {
    if n > 0 {
      PrivateMarks(c, f, params, n - 1, on);
      OneMoreMode(c, params, n, on);
      hide Wf, EntersOrLeaves, PrivateOne, PrivateOneFx;
      OneMarks(PrivateModes(c, params, n - 1, on), PrivateModesFx(c, f, params, n - 1, on), params[n - 1], on);
    }
  }

  lemma OneMoreMode(c: Core, params: seq<u16>, n: nat, on: bool)
    requires 0 < n <= |params|
    ensures EntersOrLeaves(c, params, n, on)
        <==> EntersOrLeaves(c, params, n - 1, on) || ((on || c.inAlt) && (params[n - 1] == 1047 || params[n - 1] == 1049))
  {
  }

  lemma OneMarks(c: Core, f: Fx, p: u16, on: bool)
    requires Wf(c)
    ensures var other := p == 1047 || p == 1049;
            && PrivateOne(c, p, on).inAlt == (if other then on else c.inAlt)
            && PrivateOneFx(c, f, p, on) == (if other && (on || c.inAlt) then FullDamage(f) else f)
  {
    hide GridsOk, InputMode;
  }

  lemma RowsReached(c: Core)
    requires Wf(c)
    ensures CursorIndex(c) / c.cols == c.cursorRow
    ensures (c.cols * c.rows - 1) / c.cols == c.rows - 1
    ensures (c.cursorRow * c.cols + c.cols - 1) / c.cols == c.cursorRow == c.cursorRow * c.cols / c.cols
  {
    hide GridsOk;
    RowOfIndex(c.cursorRow, c.cursorCol, c.cols);
    RowOfIndex(c.cursorRow, c.cols - 1, c.cols);
    RowOfIndex(c.cursorRow, 0, c.cols);
    RowOfIndex(c.rows - 1, c.cols - 1, c.cols);
    assert c.cols * c.rows - 1 == (c.rows - 1) * c.cols + (c.cols - 1);
  }

  lemma RowOfIndex(row: nat, col: nat, cols: nat)
    requires col < cols
    ensures (row * cols + col) / cols == row
  {
    var i := row * cols + col;
    assert i == i / cols * cols + i % cols;
    SamePlace(i / cols, i % cols, row, col, cols);
  }

  lemma SpanMarks(c: Core, f: Fx, from: nat, to: nat, first: u16, last: u16)
    requires Wf(c) && from < to <= c.cols * c.rows && from / c.cols == first && (to - 1) / c.cols == last
    ensures EraseFx(c, f, from, to).damage == Marked(f.damage, RowsFrom(first, last))
  {
    hide Wf;
  }

  lemma ScrollMarks(c: Core, f: Fx, n: nat)
    requires Wf(c) && n > 0
    ensures SameDamage(ScrollUpTimesFx(c, f, n).damage, Marked(f.damage, AllRows))
    ensures SameDamage(ScrollDownTimesFx(f, n).damage, Marked(f.damage, AllRows))
  {
    hide ScrollUpTimes, ScrollUp, Wf;
  }

  lemma CharsReached(c: Core, n: u16)
    requires Wf(c) && n > 0
    ensures var s := CharSpan(c, n); s.0 < s.1 && s.0 / c.cols == c.cursorRow == (s.1 - 1) / c.cols
  {
    hide GridsOk;
    RowOfIndex(c.cursorRow, c.cursorCol, c.cols);
    RowOfIndex(c.cursorRow, c.cursorCol + Min(n, c.cols - c.cursorCol) - 1, c.cols);
  }

  lemma EraseMarks(c: Core, f: Fx, params: seq<u16>, fin: u8)
    requires Wf(c) && fin in {0x4a, 0x4b, 0x58}
    ensures SameDamage(EditFx(c, f, params, fin).damage, Marked(f.damage, EditMarks(c, params, fin)))
  {
    if fin == 0x4a {
      DisplayMarks(c, f, CsiN(params, 0, 0));
      hide DisplaySpan, EraseFx, Wf;
    } else if fin == 0x4b {
      LineMarks(c, f, CsiN(params, 0, 0));
      hide LineSpan, EraseFx, Wf;
    } else {
      var n := CsiN(params, 0, 1);
      CharsReached(c, n);
      SpanMarks(c, f, CharSpan(c, n).0, CharSpan(c, n).1, c.cursorRow, c.cursorRow);
      hide CharSpan, EraseFx, Wf;
    }
  }

  lemma DisplayMarks(c: Core, f: Fx, mode: u16)
    requires Wf(c)
    ensures var s := DisplaySpan(c, mode);
            EraseFx(c, f, s.0, s.1).damage
            == Marked(f.damage, if mode == 0 then RowsFrom(c.cursorRow, c.rows - 1)
                                else if mode == 1 then RowsFrom(0, c.cursorRow) else RowsFrom(0, c.rows - 1))
  {
    DisplayReaches(c, mode);
    hide GridsOk, EraseFx, DisplaySpan;
    var s := DisplaySpan(c, mode);
    SpanMarks(c, f, s.0, s.1, s.0 / c.cols, (s.1 - 1) / c.cols);
  }

  lemma DisplayReaches(c: Core, mode: u16)
    requires Wf(c)
    ensures var s := DisplaySpan(c, mode);
            && s.0 / c.cols == (if mode == 0 then c.cursorRow else 0)
            && (s.1 - 1) / c.cols == (if mode == 1 then c.cursorRow else c.rows - 1)
  {
    hide GridsOk, CursorIndex;
    RowsReached(c);
    ZeroOver(c.cols);
    var s := DisplaySpan(c, mode);
    if mode == 0 {
      assert s == (CursorIndex(c), c.cols * c.rows);
    } else if mode == 1 {
      assert s == (0, CursorIndex(c) + 1);
    } else {
      assert s == (0, c.cols * c.rows);
    }
    hide DisplaySpan;
  }

  lemma ZeroOver(cols: nat)
    requires cols > 0
    ensures 0 / cols == 0
  {
  }

  lemma LineMarks(c: Core, f: Fx, mode: u16)
    requires Wf(c)
    ensures var s := LineSpan(c, mode);
            EraseFx(c, f, s.0, s.1).damage == Marked(f.damage, RowsFrom(c.cursorRow, c.cursorRow))
  {
    RowsReached(c);
    hide GridsOk, EraseFx;
    var s := LineSpan(c, mode);
    SpanMarks(c, f, s.0, s.1, s.0 / c.cols, (s.1 - 1) / c.cols);
  }

  lemma EditMarksAre(c: Core, f: Fx, params: seq<u16>, fin: u8)
    requires Wf(c) && IsEdit(fin)
    ensures SameDamage(EditFx(c, f, params, fin).damage, Marked(f.damage, EditMarks(c, params, fin)))
  {
    if fin in {0x4a, 0x4b, 0x58} {
      EraseMarks(c, f, params, fin);
    } else {
      ScrollMarks(c, f, CsiN(params, 0, 1));
      hide ScrollUpTimesFx, ScrollDownTimesFx, Wf;
    }
  }
}
