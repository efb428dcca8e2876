/** What comes back: leaving the alternate screen undoes entering it, and
    restoring the cursor undoes saving it, whatever happened in between. */
module Restoring {
  import opened VtTypes
  import opened Grid
  import opened ScreenSpec

  /** An action that cannot switch back to the primary screen. */
  predicate Stays(a: Action) {
    a.Csi? && a.inters == [0x3f] && a.fin == 0x6c ==> forall i :: 0 <= i < |a.params| ==> a.params[i] !in {1047, 1049}
  }

  /** What waits behind the alternate screen, and the cursor put aside. */
  predicate SameBehind(c: Core, d: Core) {
    && SameScreens(c, d)
    && d.savedCursor == c.savedCursor
  }

  predicate SameScreens(c: Core, d: Core) {
    && d.inAlt == c.inAlt && d.savedGrid == c.savedGrid && d.altCursor == c.altCursor
    && d.cols == c.cols && d.rows == c.rows
  }

  lemma {:induction false} ScrollStays(c: Core, n: nat)
    requires Wf(c)
    ensures SameBehind(c, ScrollUpTimes(c, n)) && SameBehind(c, ScrollDownTimes(c, n))
  {
    if n > 0 {
      ScrollStays(c, n - 1);
    }
    hide Wf;
  }

  lemma CellsStay(c: Core, n: u16, from: nat, end: nat)
    requires Wf(c)
    ensures SameBehind(c, InsertLinesCore(c, n)) && SameBehind(c, DeleteLinesCore(c, n))
    ensures SameBehind(c, InsertCellsCore(c, n)) && SameBehind(c, DeleteCellsCore(c, n))
    ensures SameBehind(c, EraseCore(c, from, end))
  {
    hide GridsOk;
  }

  lemma EditStays(c: Core, params: seq<u16>, fin: u8)
    requires Wf(c) && IsEdit(fin)
    ensures SameBehind(c, EditCore(c, params, fin))
  {
    var n, mode := CsiN(params, 0, 1), CsiN(params, 0, 0);
    var all, line, chars := DisplaySpan(c, mode), LineSpan(c, mode), CharSpan(c, n);
    ScrollStays(c, n);
    CellsStay(c, n, all.0, all.1);
    CellsStay(c, n, line.0, line.1);
    CellsStay(c, n, chars.0, chars.1);
    hide Wf, SameBehind, EraseCore, InsertLinesCore, DeleteLinesCore, InsertCellsCore, DeleteCellsCore;
    hide ScrollUpTimes, ScrollDownTimes, DisplaySpan, LineSpan, CharSpan;
  }

  lemma CsiStays(c: Core, params: seq<u16>, fin: u8)
    requires Wf(c)
    ensures SameBehind(c, CsiCore(c, params, fin))
  {
    if IsEdit(fin) {
      EditStays(c, params, fin);
    }
    hide GridsOk, EditCore;
  }

  lemma IndexStays(c: Core, col: u16)
    requires Wf(c) && col < c.cols
    ensures SameBehind(c, Index(c.(pendingWrap := false, cursorCol := col)))
    ensures SameBehind(c, ReverseIndex(c.(pendingWrap := false)))
  {
    hide GridsOk;
  }

  lemma AppendStays(t: Tables, c: Core, ch: u32)
    requires Wf(c) && ShouldAppend(t, c, ch)
    ensures SameBehind(c, WriteChar(t, c, ch))
  {
    hide GridsOk, ExpandedRow;
  }

  lemma WrapStays(c: Core, width: u16)
    requires Wf(c)
    ensures SameBehind(c, WrapIfNeeded(c, width))
  {
    IndexStays(c, 0);
    hide Wf, Index;
  }

  lemma PlaceStays(c: Core, ch: u32, width: u16)
    requires Wf(c) && 1 <= width <= 2
    ensures SameBehind(c, Place(c, ch, width))
  {
    hide GridsOk, PutRow;
  }

  lemma WriteStays(t: Tables, c: Core, ch: u32)
    requires Wf(c)
    ensures SameBehind(c, WriteChar(t, c, ch))
  {
    hide Wf, SameBehind, WrapIfNeeded, Place;
    if ShouldAppend(t, c, ch) {
      AppendStays(t, c, ch);
    } else {
      var width := ClusterWidth(t, ch);
      var d := WrapIfNeeded(c, width);
      WrapStays(c, width);
      PlaceStays(d, ch, width);
      SameBehindTwice(c, d, Place(d, ch, width));
    }
  }

  lemma {:induction false} PrivateStays(c: Core, params: seq<u16>, n: nat, on: bool)
    requires Wf(c) && c.inAlt && n <= |params|
    requires !on ==> forall i :: 0 <= i < |params| ==> params[i] !in {1047, 1049}
    ensures SameBehind(c, PrivateModes(c, params, n, on))
  {
    hide Wf, PrivateOne, SameBehind;
    if n == 0 {
      SameBehindSelf(c);
    } else {
      PrivateStays(c, params, n - 1, on);
      var d := PrivateModes(c, params, n - 1, on);
      InAltToo(c, d);
      PrivateOneStays(d, params[n - 1], on);
      SameBehindTwice(c, d, PrivateOne(d, params[n - 1], on));
    }
  }

  lemma SameBehindSelf(c: Core)
    ensures SameBehind(c, c)
  {
  }

  lemma InAltToo(c: Core, d: Core)
    requires c.inAlt && SameBehind(c, d)
    ensures d.inAlt
  {
  }

  lemma SameBehindTwice(c: Core, d: Core, e: Core)
    requires SameBehind(c, d) && SameBehind(d, e)
    ensures SameBehind(c, e)
  {
  }

  lemma PrivateOneStays(c: Core, p: u16, on: bool)
    requires Wf(c) && c.inAlt && (!on ==> p !in {1047, 1049})
    ensures SameBehind(c, PrivateOne(c, p, on))
  {
    hide GridsOk;
  }

  lemma ExecuteStays(c: Core, b: u8)
    requires Wf(c)
    ensures SameBehind(c, ExecuteCore(c, b))
  {
    hide GridsOk;
  }

  lemma EscStays(c: Core, inters: seq<u8>, b: u8)
    requires Wf(c) && b != 0x37
    ensures SameBehind(c, EscCore(c, inters, b))
  {
    hide SameBehind, Index, ReverseIndex, GridsOk;
    if b == 0x44 || b == 0x45 || b == 0x4d {
      IndexStays(c, c.cursorCol);
      IndexStays(c, 0);
      assert c.(pendingWrap := false) == c.(pendingWrap := false, cursorCol := c.cursorCol);
    } else {
      EscPlainStays(c, inters, b);
    }
  }

  lemma EscPlainStays(c: Core, inters: seq<u8>, b: u8)
    requires Wf(c) && b != 0x37 && b != 0x44 && b != 0x45 && b != 0x4d
    ensures SameBehind(c, EscCore(c, inters, b))
  {
    hide Wf, Index, ReverseIndex;
  }

  lemma StepStays(t: Tables, c: Core, a: Action)
    requires Wf(c) && c.inAlt && Stays(a)
    ensures SameScreens(c, StepCore(t, c, a))
  {
    hide Wf, WriteChar, ExecuteCore, CsiCore, PrivateModes;
    match a
    case Print(ch) => WriteStays(t, c, ch);
    case Execute(b) => ExecuteStays(c, b);
    case Esc(inters, b) =>
      if b != 0x37 {
        EscStays(c, inters, b);
        hide EscCore;
      }
    case Csi(params, inters, ignore, fin) =>
      CsiStays(c, params, fin);
      if inters == [0x3f] && (fin == 0x68 || fin == 0x6c) {
        PrivateStays(c, params, |params|, fin == 0x68);
      }
    case Osc(_) =>
  }

  lemma {:induction false} RunStays(t: Tables, c: Core, acts: seq<Action>)
    requires Wf(c) && c.inAlt && forall i :: 0 <= i < |acts| ==> Stays(acts[i])
    ensures SameScreens(c, StepAllCore(t, c, acts))
    decreases acts
  {
    hide Wf, StepCore;
    if acts != [] {
      StepStays(t, c, acts[0]);
      RunStays(t, StepCore(t, c, acts[0]), acts[1..]);
    }
  }

  const ENTER := Csi([1049], [0x3f], false, 0x68)
  const LEAVE := Csi([1049], [0x3f], false, 0x6c)

  lemma EnterIs(t: Tables, c: Core)
    requires Wf(c) && !c.inAlt
    ensures var d := StepCore(t, c, ENTER);
            d.inAlt && d.savedGrid == Some(c.grid) && d.altCursor == Some(Capture(c)) && d.cols == c.cols && d.rows == c.rows
  {
    assert PrivateModes(c, [1049], 1, true) == PrivateOne(PrivateModes(c, [1049], 0, true), 1049, true);
    hide GridsOk;
  }

  lemma LeaveIs(t: Tables, c: Core)
    requires Wf(c) && c.inAlt && c.altCursor.Some?
    ensures StepCore(t, c, LEAVE) == Restore(TakeSaved(c), c.altCursor.value)
  {
    assert PrivateModes(c, [1049], 1, false) == PrivateOne(PrivateModes(c, [1049], 0, false), 1049, false);
    hide GridsOk;
  }

  /** A full-screen program, whatever it does between entering and leaving,
      gives back the primary screen cell for cell, with the cursor, the pending
      wrap and the pen it found. */
  lemma LeavingUndoesEntering(t: Tables, c: Core, acts: seq<Action>)
    requires Wf(c) && !c.inAlt && forall i :: 0 <= i < |acts| ==> Stays(acts[i])
    ensures var d := StepAllCore(t, c, [ENTER] + acts + [LEAVE]);
            !d.inAlt && d.savedGrid == None && d.grid == c.grid && Capture(d) == Capture(c)
  {
    var c1 := StepCore(t, c, ENTER);
    var c2 := StepAllCore(t, c1, acts);
    StepAllCoreAppend(t, c, [ENTER] + acts, [LEAVE]);
    StepAllCoreAppend(t, c, [ENTER], acts);
    StepOneCore(t, c, ENTER);
    StepOneCore(t, c2, LEAVE);
    hide StepAllCore, StepCore, GridsOk;
    EnterIs(t, c);
    RunStays(t, c1, acts);
    LeaveIs(t, c2);
  }

  // ---------------------------------------------------------------- DECSC and DECRC

  const SAVE := Esc([], 0x37)
  const RESTORE := Esc([], 0x38)

  predicate SameSaved(c: Core, d: Core) {
    d.savedCursor == c.savedCursor && d.cols == c.cols && d.rows == c.rows
  }

  lemma PrivateOneSaved(c: Core, p: u16, on: bool)
    requires Wf(c)
    ensures SameSaved(c, PrivateOne(c, p, on))
  {
    AltSaved(c, p == 1049);
    hide Wf, EnterAlt, LeaveAlt;
  }

  lemma AltSaved(c: Core, b: bool)
    requires Wf(c)
    ensures SameSaved(c, EnterAlt(c, b)) && SameSaved(c, LeaveAlt(c, b))
  {
    hide GridsOk;
  }

  lemma {:induction false} PrivateSaved(c: Core, params: seq<u16>, n: nat, on: bool)
    requires Wf(c) && n <= |params|
    ensures SameSaved(c, PrivateModes(c, params, n, on))
  {
    hide Wf, PrivateOne;
    if n > 0 {
      PrivateSaved(c, params, n - 1, on);
      PrivateOneSaved(PrivateModes(c, params, n - 1, on), params[n - 1], on);
    }
  }

  lemma StepSaved(t: Tables, c: Core, a: Action)
    requires Wf(c) && !(a.Esc? && a.final == 0x37)
    ensures SameSaved(c, StepCore(t, c, a))
  {
    hide Wf, WriteChar, ExecuteCore, EscCore, CsiCore, PrivateModes;
    match a
    case Print(ch) => WriteStays(t, c, ch);
    case Execute(b) => ExecuteStays(c, b);
    case Esc(inters, b) => EscStays(c, inters, b);
    case Csi(params, inters, ignore, fin) =>
      CsiStays(c, params, fin);
      PrivateSaved(c, params, |params|, fin == 0x68);
    case Osc(_) =>
  }

  lemma {:induction false} RunSaved(t: Tables, c: Core, acts: seq<Action>)
    requires Wf(c) && forall i :: 0 <= i < |acts| ==> !(acts[i].Esc? && acts[i].final == 0x37)
    ensures SameSaved(c, StepAllCore(t, c, acts))
    decreases acts
  {
    hide Wf, StepCore;
    if acts != [] {
      StepSaved(t, c, acts[0]);
      RunSaved(t, StepCore(t, c, acts[0]), acts[1..]);
    }
  }

  lemma SaveIs(t: Tables, c: Core)
    requires Wf(c)
    ensures StepCore(t, c, SAVE) == c.(savedCursor := Some(Capture(c)))
    ensures c.savedCursor.Some? ==> StepCore(t, c, RESTORE) == Restore(c, c.savedCursor.value)
  {
    hide GridsOk;
  }

  /** Unless it is saved again in between, restoring brings back the cursor,
      the pending wrap and the pen that were saved, whatever was printed,
      scrolled or switched, on either screen. */
  lemma RestoringUndoesSaving(t: Tables, c: Core, acts: seq<Action>)
    requires Wf(c) && forall i :: 0 <= i < |acts| ==> !(acts[i].Esc? && acts[i].final == 0x37)
    ensures Capture(StepAllCore(t, c, [SAVE] + acts + [RESTORE])) == Capture(c)
  {
    var c1 := StepCore(t, c, SAVE);
    var c2 := StepAllCore(t, c1, acts);
    StepAllCoreAppend(t, c, [SAVE] + acts, [RESTORE]);
    StepAllCoreAppend(t, c, [SAVE], acts);
    StepOneCore(t, c, SAVE);
    StepOneCore(t, c2, RESTORE);
    hide StepAllCore, StepCore, GridsOk;
    SaveIs(t, c);
    RunSaved(t, c1, acts);
    SaveIs(t, c2);
  }
}
