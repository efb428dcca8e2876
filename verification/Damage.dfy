/** Damage: a host that repaints only the damaged rows shows the whole grid. */
module DamageProof {
  import opened VtTypes
  import opened Grid
  import opened Arith
  import opened ScreenSpec

  /** The rows a snapshot tells the host to repaint. */
  predicate Covers(d: Damage, r: int) {
    d.full || d.row0 <= r <= d.row1
  }

  /** A step that keeps the size and the palette, forgets no damage and
      reports every row it changes. */
  ghost predicate Reports(c: Core, f: Fx, c': Core, f': Fx) {
    && c'.cols == c.cols && c'.rows == c.rows && c'.palette == c.palette
    && |c.grid| == |c'.grid| == c.rows
    && (f.damage.full ==> f'.damage.full)
    && (forall r :: 0 <= r < c.rows && Covers(f.damage, r) ==> Covers(f'.damage, r))
    && (forall r :: 0 <= r < c.rows && c'.grid[r] != c.grid[r] ==> Covers(f'.damage, r))
  }

  lemma ReportsTwice(c: Core, f: Fx, c1: Core, f1: Fx, c2: Core, f2: Fx)
    requires Reports(c, f, c1, f1) && Reports(c1, f1, c2, f2)
    ensures Reports(c, f, c2, f2)
  {
    forall r | 0 <= r < c.rows && c2.grid[r] != c.grid[r] ensures Covers(f2.damage, r) {
      if c1.grid[r] != c.grid[r] {
        assert Covers(f1.damage, r);
      }
    }
  }

  /** A step that changes no row. */
  lemma SameGrid(c: Core, f: Fx, c': Core, f': Fx)
    requires Wf(c) && c'.grid == c.grid && c'.cols == c.cols && c'.rows == c.rows && c'.palette == c.palette
    requires f'.damage == f.damage || f'.damage.full
    ensures Reports(c, f, c', f')
  {
  }

  lemma FullReports(c: Core, f: Fx, c': Core, f': Fx)
    requires Wf(c) && Wf(c') && c'.cols == c.cols && c'.rows == c.rows && c'.palette == c.palette && f'.damage.full
    ensures Reports(c, f, c', f')
  {
  }

  /** A step that changes only rows `r0..=r1` and marks them. */
  lemma DirtyReports(c: Core, f: Fx, c': Core, r0: u16, r1: u16)
    requires Wf(c) && Wf(c') && c'.cols == c.cols && c'.rows == c.rows && c'.palette == c.palette && r0 <= r1
    requires forall r :: 0 <= r < c.rows && c'.grid[r] != c.grid[r] ==> r0 <= r <= r1
    ensures Reports(c, f, c', Dirty(f, r0, r1))
  {
  }

  lemma ScrollUpReports(c: Core, f: Fx)
    requires Wf(c)
    ensures Reports(c, f, ScrollUp(c), ScrollUpFx(c, f))
  {
    FullReports(c, f, ScrollUp(c), ScrollUpFx(c, f));
  }

  lemma IndexReports(c: Core, f: Fx)
    requires Wf(c)
    ensures Reports(c, f, Index(c), IndexFx(c, f))
  {
    ScrollUpReports(c, f);
  }

  lemma {:induction false} ScrollUpTimesReports(c: Core, f: Fx, n: nat)
    requires Wf(c)
    ensures Reports(c, f, ScrollUpTimes(c, n), ScrollUpTimesFx(c, f, n))
  {
    if n == 0 {
      SameGrid(c, f, c, f);
    } else {
      ScrollUpTimesReports(c, f, n - 1);
      var c1, f1 := ScrollUpTimes(c, n - 1), ScrollUpTimesFx(c, f, n - 1);
      ScrollUpReports(c1, f1);
      ReportsTwice(c, f, c1, f1, ScrollUp(c1), ScrollUpFx(c1, f1));
    }
  }

  lemma {:induction false} ScrollDownTimesReports(c: Core, f: Fx, n: nat)
    requires Wf(c)
    ensures Reports(c, f, ScrollDownTimes(c, n), ScrollDownTimesFx(f, n))
  {
    if n == 0 {
      SameGrid(c, f, c, f);
    } else {
      ScrollDownTimesReports(c, f, n - 1);
      var c1, f1 := ScrollDownTimes(c, n - 1), ScrollDownTimesFx(f, n - 1);
      FullReports(c1, f1, ScrollDown(c1), FullDamage(f1));
      ReportsTwice(c, f, c1, f1, ScrollDown(c1), FullDamage(f1));
    }
  }

  // ---------------------------------------------------------------- printing

  lemma AppendReports(t: Tables, c: Core, f: Fx, ch: u32)
    requires Wf(c) && ShouldAppend(t, c, ch)
    ensures Reports(c, f, WriteChar(t, c, ch), WriteCharFx(t, c, f, ch))
  {
    var a := Append(c, ch);
    ExpandLeaves(a);
    hide Expand, GridsOk, Dirty, Reports;
    DirtyReports(c, f, WriteChar(t, c, ch), a.cluster.value.row, a.cluster.value.row);
  }

  lemma ExpandGrid(c: Core)
    requires Wf(c) && Expands(c)
    ensures var cl, d := c.cluster.value, Expand(c);
            d.cols == c.cols && d.rows == c.rows && d.palette == c.palette
            && d.grid == c.grid[cl.row := ExpandedRow(c.grid[cl.row], cl.col, c.pen.bg)]
  {
    hide ExpandedRow, GridsOk;
  }

  /** Widening touches the cluster's row. */
  lemma ExpandLeaves(c: Core)
    requires Wf(c) && c.cluster.Some?
    ensures var d := Expand(c);
            d.cols == c.cols && d.rows == c.rows && d.palette == c.palette
            && forall r :: 0 <= r < c.rows && r != c.cluster.value.row ==> d.grid[r] == c.grid[r]
  {
    if Expands(c) {
      ExpandGrid(c);
      hide Expand, ExpandedRow;
    } else {
      assert Expand(c) == c;
      hide Expand;
    }
  }

  lemma PlaceReports(c: Core, f: Fx, ch: u32, width: u16)
    requires Wf(c) && 1 <= width <= 2
    ensures Reports(c, f, Place(c, ch, width), PlaceFx(c, f, width))
  {
    if c.cols - c.cursorCol < width {
      SameGrid(c, f, c, f);
    } else {
      DirtyReports(c, f, Place(c, ch, width), c.cursorRow, c.cursorRow);
    }
  }

  lemma WrapReports(c: Core, f: Fx, width: u16)
    requires Wf(c)
    ensures Reports(c, f, WrapIfNeeded(c, width), WrapFx(c, f, width))
  {
    if Wraps(c, width) && c.autowrap {
      IndexReports(c.(pendingWrap := false, cursorCol := 0), f);
    } else {
      SameGrid(c, f, WrapIfNeeded(c, width), f);
    }
  }

  lemma WriteCharReports(t: Tables, c: Core, f: Fx, ch: u32)
    requires Wf(c)
    ensures Reports(c, f, WriteChar(t, c, ch), WriteCharFx(t, c, f, ch))
  {
    if ShouldAppend(t, c, ch) {
      AppendReports(t, c, f, ch);
    } else {
      var width := ClusterWidth(t, ch);
      var c1, f1 := WrapIfNeeded(c, width), WrapFx(c, f, width);
      WrapReports(c, f, width);
      PlaceReports(c1, f1, ch, width);
      ReportsTwice(c, f, c1, f1, Place(c1, ch, width), PlaceFx(c1, f1, width));
    }
  }

  // ---------------------------------------------------------------- editing

  /** Outside the rows of the span both clipped bounds coincide. */
  lemma ClipAbove(from: nat, to: nat, r: nat, cols: nat)
    requires cols > 0 && r < from / cols
    ensures Clip(to, r, cols) <= Clip(from, r, cols)
  {
    var q := from / cols;
    assert from == q * cols + from % cols;
    RowsApart(r, q, cols);
  }

  lemma ClipBelow(from: nat, to: nat, r: nat, cols: nat)
    requires cols > 0 && to > 0 && r > (to - 1) / cols
    ensures Clip(to, r, cols) <= Clip(from, r, cols)
  {
    var q := (to - 1) / cols;
    assert to - 1 == q * cols + (to - 1) % cols;
    RowsApart(q, r, cols);
  }

  lemma EraseReports(c: Core, f: Fx, from: nat, to: nat)
    requires Wf(c) && from <= to <= c.cols * c.rows
    ensures Reports(c, f, EraseCore(c, from, to), EraseFx(c, f, from, to))
  {
    var d := EraseCore(c, from, to);
    forall r | 0 <= r < c.rows && d.grid[r] != c.grid[r] ensures from < to && from / c.cols <= r <= (to - 1) / c.cols {
      if r < from / c.cols {
        ClipAbove(from, to, r, c.cols);
      } else if from < to && r > (to - 1) / c.cols {
        ClipBelow(from, to, r, c.cols);
      }
    }
    if from < to {
      var s := SpanRows(c.cols, c.rows, from, to);
      DirtyReports(c, f, d, s.0, s.1);
    } else {
      assert d.grid == c.grid;
      SameGrid(c, f, d, f);
    }
  }

  lemma LinesReport(c: Core, f: Fx, d: Core, n: u16)
    requires Wf(c) && (d == InsertLinesCore(c, n) || d == DeleteLinesCore(c, n)) && n > 0
    ensures Reports(c, f, d, LinesFx(c, f, n))
  {
    if InRegion(c) {
      DirtyReports(c, f, d, c.cursorRow, c.scrollBottom);
    } else {
      SameGrid(c, f, d, f);
    }
  }

  lemma CellsReport(c: Core, f: Fx, d: Core, n: u16)
    requires Wf(c) && (d == InsertCellsCore(c, n) || d == DeleteCellsCore(c, n)) && n > 0
    ensures Reports(c, f, d, CellsFx(c, f, n))
  {
    DirtyReports(c, f, d, c.cursorRow, c.cursorRow);
  }

  lemma EraseDisplayReports(c: Core, f: Fx, mode: u16)
    requires Wf(c)
    ensures var s := DisplaySpan(c, mode);
            var g := EraseFx(c, f, s.0, s.1);
            Reports(c, f, EraseCore(c, s.0, s.1), if mode > 1 then FullDamage(g) else g)
  {
    var s := DisplaySpan(c, mode);
    EraseReports(c, f, s.0, s.1);
    FullReports(c, f, EraseCore(c, s.0, s.1), FullDamage(EraseFx(c, f, s.0, s.1)));
  }

  lemma EditReports(c: Core, f: Fx, params: seq<u16>, fin: u8)
    requires Wf(c) && IsEdit(fin)
    ensures Reports(c, f, EditCore(c, params, fin), EditFx(c, f, params, fin))
  {
    var n := CsiN(params, 0, 1);
    hide Reports, Wf, EraseCore, EraseFx, InsertLinesCore, DeleteLinesCore, InsertCellsCore, DeleteCellsCore;
    hide LinesFx, CellsFx, ScrollUpTimes, ScrollUpTimesFx, ScrollDownTimes, ScrollDownTimesFx;
    hide DisplaySpan, LineSpan, CharSpan;
    if fin == 0x4a {
      EraseDisplayReports(c, f, CsiN(params, 0, 0));
    } else if fin == 0x4b {
      var s := LineSpan(c, CsiN(params, 0, 0));
      EraseReports(c, f, s.0, s.1);
    } else if fin == 0x58 {
      var s := CharSpan(c, n);
      EraseReports(c, f, s.0, s.1);
    } else if fin == 0x4c || fin == 0x4d {
      LinesReport(c, f, EditCore(c, params, fin), n);
    } else if fin == 0x40 || fin == 0x50 {
      CellsReport(c, f, EditCore(c, params, fin), n);
    } else if fin == 0x53 {
      ScrollUpTimesReports(c, f, n);
    } else {
      ScrollDownTimesReports(c, f, n);
    }
  }

  // ---------------------------------------------------------------- every action, every run of actions

  lemma {:induction false} PrivateModesReport(c: Core, f: Fx, params: seq<u16>, n: nat, on: bool)
    requires Wf(c) && n <= |params|
    ensures Reports(c, f, PrivateModes(c, params, n, on), PrivateModesFx(c, f, params, n, on))
  {
    if n == 0 {
      SameGrid(c, f, c, f);
    } else {
      PrivateModesReport(c, f, params, n - 1, on);
      var c1, f1 := PrivateModes(c, params, n - 1, on), PrivateModesFx(c, f, params, n - 1, on);
      var c2, f2 := PrivateOne(c1, params[n - 1], on), PrivateOneFx(c1, f1, params[n - 1], on);
      PrivateOneReports(c1, f1, params[n - 1], on);
      ReportsTwice(c, f, c1, f1, c2, f2);
    }
  }

  lemma AltKeeps(c: Core, b: bool)
    requires Wf(c)
    ensures EnterAlt(c, b).cols == c.cols && EnterAlt(c, b).rows == c.rows && EnterAlt(c, b).palette == c.palette
    ensures LeaveAlt(c, b).cols == c.cols && LeaveAlt(c, b).rows == c.rows && LeaveAlt(c, b).palette == c.palette
    ensures !c.inAlt ==> LeaveAlt(c, b) == c
  {
    hide Wf;
  }

  lemma PrivateOneReports(c: Core, f: Fx, p: u16, on: bool)
    requires Wf(c)
    ensures Reports(c, f, PrivateOne(c, p, on), PrivateOneFx(c, f, p, on))
  {
    var d, g := PrivateOne(c, p, on), PrivateOneFx(c, f, p, on);
    AltKeeps(c, p == 1049);
    hide EnterAlt, LeaveAlt, Wf, Reports;
    if (p == 1047 || p == 1049) && (on || c.inAlt) {
      FullReports(c, f, d, g);
    } else {
      SameGrid(c, f, d, g);
    }
  }

  lemma ExecuteReports(c: Core, f: Fx, b: u8)
    requires Wf(c)
    ensures Reports(c, f, ExecuteCore(c, b), ExecuteFx(c, f, b))
  {
    if 0x0a <= b <= 0x0c {
      IndexReports(c.(pendingWrap := false, cluster := None), f);
    } else {
      SameGrid(c, f, ExecuteCore(c, b), f);
    }
  }

  lemma IndexAtReports(c: Core, f: Fx, col: u16)
    requires Wf(c) && col < c.cols
    ensures Reports(c, f, Index(c.(pendingWrap := false, cursorCol := col)), IndexFx(c, f))
  {
    IndexReports(c.(pendingWrap := false, cursorCol := col), f);
  }

  lemma ReverseIndexAtReports(c: Core, f: Fx)
    requires Wf(c)
    ensures Reports(c, f, ReverseIndex(c.(pendingWrap := false)), ReverseIndexFx(c, f))
  {
    ReverseIndexReports(c.(pendingWrap := false), f);
  }

  lemma EscReports(c: Core, f: Fx, inters: seq<u8>, b: u8)
    requires Wf(c)
    ensures Reports(c, f, EscCore(c, inters, b), EscFx(c, f, b))
  {
    hide Index, ReverseIndex, ReverseIndexFx, IndexFx, Reports;
    if b == 0x44 || b == 0x45 {
      IndexAtReports(c, f, if b == 0x45 then 0 else c.cursorCol);
      assert c.(pendingWrap := false) == c.(pendingWrap := false, cursorCol := c.cursorCol);
      assert c.(pendingWrap := false).(cursorCol := 0) == c.(pendingWrap := false, cursorCol := 0);
    } else if b == 0x4d {
      ReverseIndexAtReports(c, f);
    } else {
      hide Wf;
      SameGrid(c, f, EscCore(c, inters, b), f);
    }
  }

  lemma ReverseIndexReports(c: Core, f: Fx)
    requires Wf(c)
    ensures Reports(c, f, ReverseIndex(c), ReverseIndexFx(c, f))
  {
    if c.cursorRow <= c.scrollTop {
      FullReports(c, f, ScrollDown(c), FullDamage(f));
    } else {
      SameGrid(c, f, ReverseIndex(c), f);
    }
  }

  lemma CsiReports(c: Core, f: Fx, params: seq<u16>, fin: u8)
    requires Wf(c)
    ensures Reports(c, f, CsiCore(c, params, fin), CsiFx(c, f, params, fin))
  {
    if IsEdit(fin) {
      EditReports(c, f, params, fin);
    } else {
      SameGrid(c, f, CsiCore(c, params, fin), CsiFx(c, f, params, fin));
    }
  }

  lemma StepReports(t: Tables, c: Core, f: Fx, a: Action)
    requires Wf(c)
    ensures Reports(c, f, StepCore(t, c, a), StepFx(t, c, f, a))
  {
    hide Reports, WriteChar, WriteCharFx, ExecuteCore, ExecuteFx, EscCore, EscFx;
    hide CsiCore, CsiFx, PrivateModes, PrivateModesFx;
    match a
    case Print(ch) => WriteCharReports(t, c, f, ch);
    case Execute(b) => ExecuteReports(c, f, b);
    case Esc(inters, b) => EscReports(c, f, inters, b);
    case Csi(params, inters, ignore, fin) =>
      SameGrid(c, f, c, StepFx(t, c, f, Csi(params, [0], ignore, fin)));
      SameGrid(c, f, c, Reply(f, SECONDARY_DA));
      PrivateModesReport(c, f, params, |params|, fin == 0x68);
      CsiReports(c, f, params, fin);
    case Osc(_) => SameGrid(c, f, c, f);
  }

  /** Over any run of actions, every row whose contents differ at the end is
      covered by the damage at the end. */
  lemma {:induction false} RunReports(t: Tables, d: Display, acts: seq<Action>)
    requires Wf(d.core)
    ensures var e := StepAll(t, d, acts);
            Reports(d.core, d.fx, e.core, e.fx)
    decreases acts
  {
    hide StepCore, StepFx, Wf;
    if acts == [] {
      SameGrid(d.core, d.fx, d.core, d.fx);
    } else {
      var d1 := Step(t, d, acts[0]);
      StepReports(t, d.core, d.fx, acts[0]);
      RunReports(t, d1, acts[1..]);
      var e := StepAll(t, d, acts);
      ReportsTwice(d.core, d.fx, d1.core, d1.fx, e.core, e.fx);
    }
  }

  // ---------------------------------------------------------------- the renderer

  /** The rows as the host paints them. */
  function Painted(t: Tables, c: Core): seq<seq<PodCell>> {
    seq(|c.grid|, r requires 0 <= r < |c.grid| => PodRow(t, c.palette, c.grid[r]))
  }

  /** A host that copies the damaged rows of a snapshot over what it shows. */
  function Repaint(shown: seq<seq<PodCell>>, now: seq<seq<PodCell>>, d: Damage): seq<seq<PodCell>> {
    if d.full || |shown| != |now| then now
    else seq(|now|, r requires 0 <= r < |now| => if Covers(d, r) then now[r] else shown[r])
  }

  /** What is shown can differ from the grid only where there is damage. */
  ghost predicate Tracks(t: Tables, shown: seq<seq<PodCell>>, c: Core, f: Fx) {
    f.damage.full ||
    (|shown| == |c.grid| &&
     forall r :: 0 <= r < |c.grid| && !Covers(f.damage, r) ==> shown[r] == PodRow(t, c.palette, c.grid[r]))
  }

  lemma ReportsTracks(t: Tables, shown: seq<seq<PodCell>>, c: Core, f: Fx, c': Core, f': Fx)
    requires Reports(c, f, c', f') && Tracks(t, shown, c, f)
    ensures Tracks(t, shown, c', f')
  {
    if !f'.damage.full {
      forall r | 0 <= r < |c'.grid| && !Covers(f'.damage, r)
        ensures !Covers(f.damage, r) && c'.grid[r] == c.grid[r]
      {
      }
    }
  }

  /** Repainting what tracks the grid shows exactly the grid. */
  lemma TracksRepaints(t: Tables, shown: seq<seq<PodCell>>, c: Core, f: Fx)
    requires Tracks(t, shown, c, f)
    ensures Repaint(shown, Painted(t, c), f.damage) == Painted(t, c)
  {
  }
}
