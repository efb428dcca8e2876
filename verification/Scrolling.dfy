/** Scrolling in closed form, and the conservation of the rows that leave. */
module Scrolling {
  import opened VtTypes
  import opened Grid
  import opened ScreenSpec

  function Height(c: Core): nat
    requires Wf(c)
  {
    c.scrollBottom - c.scrollTop + 1
  }

  lemma DeletedTwice(g: Rows, first: nat, last: nat, n: nat, blank: Row)
    requires first <= last < |g| && n <= last + 1 - first
    ensures LinesDeleted(LinesDeleted(g, first, last, n, blank), first, last, 1, blank)
         == LinesDeleted(g, first, last, Min(n + 1, last + 1 - first), blank)
  {
    var m, h := LinesDeleted(g, first, last, n, blank), last + 1 - first;
    var x, y := LinesDeleted(m, first, last, 1, blank), LinesDeleted(g, first, last, Min(n + 1, h), blank);
    forall k | 0 <= k < |g| ensures x[k] == y[k] {
    }
  }

  lemma InsertedTwice(g: Rows, first: nat, last: nat, n: nat, blank: Row)
    requires first <= last < |g| && n <= last + 1 - first
    ensures LinesInserted(LinesInserted(g, first, last, n, blank), first, last, 1, blank)
         == LinesInserted(g, first, last, Min(n + 1, last + 1 - first), blank)
  {
    var m, h := LinesInserted(g, first, last, n, blank), last + 1 - first;
    var x, y := LinesInserted(m, first, last, 1, blank), LinesInserted(g, first, last, Min(n + 1, h), blank);
    forall k | 0 <= k < |g| ensures x[k] == y[k] {
      if first < k <= last {
        assert x[k] == m[k - 1];
      }
    }
  }

  /** The core with its region's first `n` rows removed. */
  function ScrolledUp(c: Core, n: nat): (d: Core)
    requires Wf(c) && n <= Height(c)
    ensures Wf(d)
  {
    c.(grid := LinesDeleted(c.grid, c.scrollTop, c.scrollBottom, n, BlankLine(c)))
  }

  function ScrolledDown(c: Core, n: nat): (d: Core)
    requires Wf(c) && n <= Height(c)
    ensures Wf(d)
  {
    c.(grid := LinesInserted(c.grid, c.scrollTop, c.scrollBottom, n, BlankLine(c)))
  }

  lemma ScrollUpStep(c: Core, n: nat)
    requires Wf(c) && n <= Height(c)
    ensures ScrolledUp(c, 0) == c
    ensures ScrollUp(ScrolledUp(c, n)) == ScrolledUp(c, Min(n + 1, Height(c)))
  {
    NoLines(c.grid, c.scrollTop, c.scrollBottom, BlankLine(c));
    DeletedTwice(c.grid, c.scrollTop, c.scrollBottom, n, BlankLine(c));
    hide LinesDeleted, GridsOk;
  }

  lemma ScrollDownStep(c: Core, n: nat)
    requires Wf(c) && n <= Height(c)
    ensures ScrolledDown(c, 0) == c
    ensures ScrollDown(ScrolledDown(c, n)) == ScrolledDown(c, Min(n + 1, Height(c)))
  {
    NoLines(c.grid, c.scrollTop, c.scrollBottom, BlankLine(c));
    InsertedTwice(c.grid, c.scrollTop, c.scrollBottom, n, BlankLine(c));
    hide LinesInserted, GridsOk;
  }

  /** SU n removes the region's first min(n, height) rows and adds as many
      blanks at its bottom; nothing outside the region moves. */
  lemma {:induction false} ScrollUpIs(c: Core, n: nat)
    requires Wf(c)
    ensures ScrollUpTimes(c, n) == ScrolledUp(c, Min(n, Height(c)))
    decreases n
  {
    hide Wf, ScrolledUp, ScrollUp, Height;
    if n == 0 {
      ScrollUpStep(c, 0);
    } else {
      ScrollUpIs(c, n - 1);
      ScrollUpStep(c, Min(n - 1, Height(c)));
      assert ScrollUpTimes(c, n) == ScrollUp(ScrolledUp(c, Min(n - 1, Height(c))));
    }
  }

  /** SD n is the mirror image. */
  lemma {:induction false} ScrollDownIs(c: Core, n: nat)
    requires Wf(c)
    ensures ScrollDownTimes(c, n) == ScrolledDown(c, Min(n, Height(c)))
    decreases n
  {
    hide Wf, ScrolledDown, ScrollDown, Height;
    if n == 0 {
      ScrollDownStep(c, 0);
    } else {
      ScrollDownIs(c, n - 1);
      ScrollDownStep(c, Min(n - 1, Height(c)));
      assert ScrollDownTimes(c, n) == ScrollDown(ScrolledDown(c, Min(n - 1, Height(c))));
    }
  }

  // ---------------------------------------------------------------- the scroll log

  /** The rows of the scroll region, top to bottom. */
  function Region(c: Core): Rows
    requires Wf(c)
  {
    c.grid[c.scrollTop..c.scrollBottom + 1]
  }

  lemma ScrollOneKeeps(c: Core, f: Fx)
    requires Wf(c) && !c.inAlt && c.scrollTop == 0
    ensures ScrollUpFx(c, f).scrolledOff + Region(ScrollUp(c)) == f.scrolledOff + Region(c) + [BlankLine(c)]
  {
    var d := ScrollUp(c);
    var blank := BlankLine(c);
    assert Region(d) == c.grid[1..c.scrollBottom + 1] + [blank];
    assert Region(c) == [c.grid[0]] + c.grid[1..c.scrollBottom + 1];
    assert c.scrollBottom < |c.grid|;
    hide LinesDeleted, GridsOk, BlankRow;
  }

  /** On the primary screen with the region at the top, no row is lost or
      duplicated: the log followed by the region only ever gains blanks. */
  lemma {:induction false} ScrollKeeps(c: Core, f: Fx, n: nat)
    requires Wf(c) && !c.inAlt && c.scrollTop == 0
    ensures ScrollUpTimesFx(c, f, n).scrolledOff + Region(ScrollUpTimes(c, n))
         == f.scrolledOff + Region(c) + BlankRows(n, BlankLine(c))
  {
    hide LinesDeleted, GridsOk, ScrollUp, Region;
    if n > 0 {
      ScrollKeeps(c, f, n - 1);
      ScrollUpIs(c, n - 1);
      var d := ScrollUpTimes(c, n - 1);
      ScrollOneKeeps(d, ScrollUpTimesFx(c, f, n - 1));
      assert BlankRows(n, BlankLine(c)) == BlankRows(n - 1, BlankLine(c)) + [BlankLine(c)];
      hide BlankRows, BlankLine;
    }
  }

  /** Rows that scroll off elsewhere are not logged. */
  predicate Logs(c: Core) {
    !c.inAlt && c.scrollTop == 0
  }

  lemma {:induction false} ScrollTimesLog(c: Core, f: Fx, n: nat)
    requires Wf(c)
    ensures f.scrolledOff <= ScrollUpTimesFx(c, f, n).scrolledOff
    ensures !Logs(c) ==> ScrollUpTimesFx(c, f, n).scrolledOff == f.scrolledOff
  {
    hide LinesDeleted, GridsOk;
    if n > 0 {
      ScrollTimesLog(c, f, n - 1);
      ScrollUpIs(c, n - 1);
    }
  }

  lemma {:induction false} PrivateLog(c: Core, f: Fx, params: seq<u16>, n: nat, on: bool)
    requires Wf(c) && n <= |params|
    ensures PrivateModesFx(c, f, params, n, on).scrolledOff == f.scrolledOff
  {
    if n > 0 {
      PrivateLog(c, f, params, n - 1, on);
    }
    hide PrivateModes, Wf;
  }

  lemma EditLog(c: Core, f: Fx, params: seq<u16>, fin: u8)
    requires Wf(c) && IsEdit(fin)
    ensures f.scrolledOff <= EditFx(c, f, params, fin).scrolledOff
    ensures !Logs(c) ==> EditFx(c, f, params, fin).scrolledOff == f.scrolledOff
  {
    var n, mode := CsiN(params, 0, 1), CsiN(params, 0, 0);
    ScrollTimesLog(c, f, n);
    var all, line, chars := DisplaySpan(c, mode), LineSpan(c, mode), CharSpan(c, n);
    DamageOnly(c, f, all.0, all.1, n);
    DamageOnly(c, f, line.0, line.1, n);
    DamageOnly(c, f, chars.0, chars.1, n);
    hide ScrollUpTimesFx, DisplaySpan, LineSpan, CharSpan, CsiN, Wf, EraseFx, LinesFx, CellsFx;
  }

  lemma DamageOnly(c: Core, f: Fx, from: nat, to: nat, n: u16)
    requires Wf(c) && to <= c.cols * c.rows
    ensures EraseFx(c, f, from, to).scrolledOff == f.scrolledOff
    ensures LinesFx(c, f, n).scrolledOff == f.scrolledOff
    ensures CellsFx(c, f, n).scrolledOff == f.scrolledOff
  {
    hide Wf;
  }

  /** An action only ever appends to the log, and only on the primary screen
      with the region at the top. */
  lemma StepLog(t: Tables, c: Core, f: Fx, a: Action)
    requires Wf(c)
    ensures f.scrolledOff <= StepFx(t, c, f, a).scrolledOff
    ensures !Logs(c) ==> StepFx(t, c, f, a).scrolledOff == f.scrolledOff
  {
    if a.Csi? {
      PrivateLog(c, f, a.params, |a.params|, a.fin == 0x68);
      if IsEdit(a.fin) {
        EditLog(c, f, a.params, a.fin);
      }
      hide PrivateModesFx, EditFx, Wf;
    } else {
      hide WrapIfNeeded, Wf;
    }
  }

  lemma {:induction false} RunLog(t: Tables, d: Display, acts: seq<Action>)
    requires Wf(d.core)
    ensures d.fx.scrolledOff <= StepAll(t, d, acts).fx.scrolledOff
    decreases acts
  {
    if acts != [] {
      StepLog(t, d.core, d.fx, acts[0]);
      hide StepCore, StepFx, Wf;
      RunLog(t, Step(t, d, acts[0]), acts[1..]);
    }
  }
}
