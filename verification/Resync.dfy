/** The cold resync, and exactly when it is worth the whole history. */
module Resync {
  import opened VtTypes
  import opened Grid
  import opened Repaint
  import opened RowDrawing
  import opened CellInvariants
  import Arith
  import CsiFidelity
  import DamageProof
  import R = RepaintProof
  import X = RepaintExact
  import W = WidePairs
  import P = ParserSpec
  import S = ScreenSpec
  import E = EngineSpec
  import Utf8

  /** ED 2, then CUP home. */
  function ClearBytes(): seq<u8> {
    CsiFidelity.Sequence([], [2], 0x4a) + CsiFidelity.Written([], [[]], [], 0x48)
  }

  method EmitClear() returns (out: seq<u8>)
    ensures out == ClearBytes()
  {
    var erase := EmitOne(2, 0x4a);
    out := erase + (CsiFidelity.CSI + [0x48]);
  }

  const CLEAR: seq<Action> := [Csi([2], [], false, 0x4a)] + [Csi([], [], false, 0x48)]

  lemma ReadsClear()
    ensures Reads(ClearBytes(), CLEAR)
  {
    ReadsNumbers([], [2], 0x4a);
    CsiFidelity.Fidelity(P.NEW, [], [[]], [], 0x48);
    hide P.Run, CsiFidelity.Sequence, CsiFidelity.Written;
    ReadsBoth(CsiFidelity.Sequence([], [2], 0x4a), [Csi([2], [], false, 0x4a)],
              CsiFidelity.Written([], [[]], [], 0x48), [Csi([], [], false, 0x48)]);
  }

  /** Erasing a screen of default blanks with the default background. */
  lemma EraseBlank(c: S.Core)
    requires R.Cleared(c)
    ensures S.EraseCore(c, 0, c.cols * c.rows) == c
  {
    var g := SpanErased(c.grid, c.cols, 0, c.cols * c.rows, Default);
    forall r | 0 <= r < c.rows ensures g[r] == c.grid[r] {
      Arith.RowInGrid(r, c.cols, c.rows);
      assert Clip(0, r, c.cols) == 0;
      assert Clip(c.cols * c.rows, r, c.cols) == c.cols;
    }
    assert g == c.grid;
  }

  lemma ClearCleared(t: Tables, c: S.Core)
    requires R.Cleared(c)
    ensures S.StepAllCore(t, c, CLEAR) == c
  {
    EraseBlank(c);
    S.StepAllCoreAppend(t, c, [Csi([2], [], false, 0x4a)], [Csi([], [], false, 0x48)]);
    S.StepOneCore(t, c, Csi([2], [], false, 0x4a));
    S.StepOneCore(t, c, Csi([], [], false, 0x48));
    hide S.GridsOk, S.EraseCore, S.StepAllCore;
  }

  /** A new engine that answers nothing. */
  function Quietly(t: Tables, cols: u16, rows: u16): (e: E.Engine)
    requires cols > 0 && rows > 0 && WfPalette(t.palette)
    ensures E.Wf(e)
  {
    E.Engine(P.NEW, S.Display(S.NewCore(t, cols, rows), S.NEW_FX.(discard := true)))
  }

  /** The engine that replays history for a cold resync. */
  function Replayed(t: Tables, cols: u16, rows: u16, history: seq<u8>): (e: E.Engine)
    requires cols > 0 && rows > 0 && WfPalette(t.palette)
    ensures E.Wf(e)
  {
    E.Feed(t, Quietly(t, cols, rows), history)
  }

  /** Replies are wanted again. */
  function Loud(e: E.Engine): E.Engine {
    e.(display := e.display.(fx := e.display.fx.(discard := false)))
  }

  /** `resync_from_history`. */
  function ResyncBytes(t: Tables, cols: u16, rows: u16, history: seq<u8>): seq<u8>
    requires cols > 0 && rows > 0 && WfPalette(t.palette)
  {
    ClearBytes() + RepaintBytes(Replayed(t, cols, rows, history).display.core)
  }

  /** A new client fed a cold resync: the clear changes nothing, then the host's
      screen is printed. */
  lemma ResyncRuns(t: Tables, e: E.Engine, history: seq<u8>)
    requires E.Wf(e) && P.IsIdle(e.parser) && WfPalette(t.palette)
    requires e.display.core == S.NewCore(t, e.display.core.cols, e.display.core.rows)
    requires AllPrintable(E.Feed(t, e, history).display.core.grid)
    ensures E.Feed(t, e, ResyncBytes(t, e.display.core.cols, e.display.core.rows, history)).display.core
         == S.StepAllCore(t, e.display.core, RepaintActs(E.Feed(t, e, history).display.core))
  {
    var core := e.display.core;
    var host := Replayed(t, core.cols, core.rows, history);
    E.FeedSame(t, e, Quietly(t, core.cols, core.rows), history);
    R.NewIsCleared(t, core.cols, core.rows);
    ReadsClear();
    E.IdleIsNew(e.parser, ClearBytes());
    E.CoreRuns(t, e.display, CLEAR);
    ClearCleared(t, core);
    var cleared := E.Feed(t, e, ClearBytes());
    hide S.Wf, S.NewCore, P.Run, RepaintActs, RepaintBytes, S.StepAll, S.StepAllCore, R.Cleared, Reads;
    E.FeedAppend(t, e, ClearBytes(), RepaintBytes(host.display.core));
    R.RepaintRuns(t, cleared, host.display.core);
  }

  lemma SizeKept(t: Tables, e: E.Engine, bytes: seq<u8>)
    requires E.Wf(e)
    ensures E.Feed(t, e, bytes).display.core.cols == e.display.core.cols
    ensures E.Feed(t, e, bytes).display.core.rows == e.display.core.rows
    ensures E.Feed(t, e, bytes).display.core.palette == e.display.core.palette
  {
    DamageProof.RunReports(t, e.display, P.Run(e.parser, bytes).acts);
    hide S.StepAll, P.Run;
  }

  // ---------------------------------------------------------------- what a program can print

  predicate PrintsScalar(a: Action) {
    a.Print? ==> IsScalar(a.c) && a.c >= 0x20 && a.c != 0x7f
  }

  ghost predicate AllScalars(acts: seq<Action>) {
    forall i :: 0 <= i < |acts| ==> PrintsScalar(acts[i])
  }

  /** A decoded character is beyond ASCII. */
  lemma DecodedPrints(s: seq<u8>)
    requires 2 <= |s| <= 4 && Utf8.PendingUtf8(s, |s|)
    ensures var c := Utf8.Decode(s); c.Some? ==> PrintsScalar(Print(c.value))
  {
    if Utf8.Decode(s).Some? {
      Utf8.EncodeDecode(s);
      hide Utf8.Decode;
    }
  }

  lemma GroundPrints(p: P.Parser, b: u8)
    requires P.Settled(p) && p.state == P.Ground
    ensures AllScalars(P.GroundStep(p, b).acts)
  {
    if p.needed > 0 && Utf8.IsTailByte(b) {
      var s := p.utf8 + [b];
      assert Utf8.PendingUtf8(s, p.needed);
      if |s| == p.needed {
        DecodedPrints(s);
      }
      hide Utf8.Decode;
    }
  }

  lemma StepPrints(p: P.Parser, b: u8)
    requires P.Settled(p)
    ensures AllScalars(P.Step(p, b).acts)
  {
    if p.state == P.Ground {
      GroundPrints(p, b);
      hide P.GroundStep;
    }
  }

  lemma ScalarsAppend(xs: seq<Action>, ys: seq<Action>)
    requires AllScalars(xs) && AllScalars(ys)
    ensures AllScalars(xs + ys)
  {
    hide PrintsScalar;
  }

  /** The parser prints nothing but printable scalars, whatever it is fed. */
  lemma {:induction false} RunPrints(p: P.Parser, bytes: seq<u8>)
    requires P.Settled(p)
    ensures AllScalars(P.Run(p, bytes).acts)
    decreases bytes
  {
    if bytes != [] {
      ConsumePrints(p, bytes[0]);
      hide P.Consume, AllScalars;
      var first := P.Consume(p, bytes[0]);
      RunPrints(first.p, bytes[1..]);
      ScalarsAppend(first.acts, P.Run(first.p, bytes[1..]).acts);
    }
  }

  lemma ConsumePrints(p: P.Parser, b: u8)
    requires P.Settled(p)
    ensures AllScalars(P.Consume(p, b).acts)
  {
    hide P.Step, AllScalars;
    var first := P.Step(p, b);
    StepPrints(p, b);
    if first.p.putback.Some? {
      StepPrints(first.p.(putback := None), b);
      ScalarsAppend(first.acts, P.Step(first.p.(putback := None), b).acts);
    }
  }

  /** A printable scalar, also in a tail. */
  predicate Seen(c: Cell) {
    IsScalar(c.codepoint) && c.codepoint >= 0x20 && c.codepoint != 0x7f
  }

  lemma {:induction false} SeenRun(t: Tables, c: S.Core, acts: seq<Action>)
    requires S.Wf(c) && CellsHold(Seen, c) && AllScalars(acts)
    ensures CellsHold(Seen, S.StepAllCore(t, c, acts))
    decreases acts
  {
    if acts != [] {
      SeenStep(t, c, acts[0]);
      hide CellsHold, S.Wf, S.StepCore, PrintsScalar;
      SeenRun(t, S.StepCore(t, c, acts[0]), acts[1..]);
    }
  }

  lemma SeenStep(t: Tables, c: S.Core, a: Action)
    requires S.Wf(c) && CellsHold(Seen, c) && PrintsScalar(a)
    ensures CellsHold(Seen, S.StepCore(t, c, a))
  {
    hide CellsHold, S.Wf, S.StepCore;
    assert Writes(t, Seen, c, a);
    StepHolds(t, Seen, c, a);
  }

  /** Every screen a program can reach is made of cells a repaint can print. */
  lemma ReachedPrints(t: Tables, e: E.Engine, history: seq<u8>)
    requires E.Wf(e) && CellsHold(Seen, e.display.core)
    ensures AllPrintable(E.Feed(t, e, history).display.core.grid)
  {
    var acts := P.Run(e.parser, history).acts;
    RunPrints(e.parser, history);
    E.CoreRuns(t, e.display, acts);
    hide P.Run, S.StepAll, S.StepAllCore, S.Wf;
    SeenRun(t, e.display.core, acts);
    var g := S.StepAllCore(t, e.display.core, acts).grid;
    forall r, k | 0 <= r < |g| && 0 <= k < |g[r]| ensures Printable(g[r][k]) {
      assert RowHolds(Seen, g[r]);
      assert Seen(g[r][k]);
    }
  }

  lemma NewIsSeen(t: Tables, cols: u16, rows: u16)
    requires cols > 0 && rows > 0 && WfPalette(t.palette)
    ensures CellsHold(Seen, S.NewCore(t, cols, rows))
  {
    BlankRowHolds(Seen, cols, Default);
  }

  // ---------------------------------------------------------------- exactly when a resync is exact

  /** An engine no byte has reached. */
  ghost predicate Untouched(t: Tables, e: E.Engine) {
    && E.Wf(e) && P.IsIdle(e.parser) && WfPalette(t.palette)
    && e.display.core == S.NewCore(t, e.display.core.cols, e.display.core.rows)
  }

  /** What a client shows that starts from nothing and is fed the cold resync
      of a history. */
  function Resynced(t: Tables, e: E.Engine, history: seq<u8>): S.Core
    requires Untouched(t, e)
  {
    E.Feed(t, e, ResyncBytes(t, e.display.core.cols, e.display.core.rows, history)).display.core
  }

  /** What it would show had it been fed the history itself. */
  function Lived(t: Tables, e: E.Engine, history: seq<u8>): S.Core
    requires Untouched(t, e)
  {
    E.Feed(t, e, history).display.core
  }

  /** For every history: the cold resync shows the screen the history leads to
      if and only if on that screen every character stands alone; and then
      `Painted` says what the whole client is. */
  lemma ResyncIsExact(t: Tables, e: E.Engine, history: seq<u8>)
    requires Untouched(t, e) && !t.wide(32)
    ensures R.Rebuilt(Resynced(t, e, history), Lived(t, e, history)) <==> Faithful(t, Lived(t, e, history).grid)
    ensures Faithful(t, Lived(t, e, history).grid) ==>
              Resynced(t, e, history) == R.Painted(e.display.core, Lived(t, e, history))
  {
    var c := e.display.core;
    NewIsSeen(t, c.cols, c.rows);
    ReachedPrints(t, e, history);
    ResyncRuns(t, e, history);
    SizeKept(t, e, history);
    R.NewIsCleared(t, c.cols, c.rows);
    hide S.NewCore, R.Rebuilt, R.Painted, RepaintActs, ResyncBytes, Faithful, S.StepAllCore, E.Feed, CellsHold, R.Cleared;
    X.ActsUndone(t, c, Lived(t, e, history));
  }

  /** What a resync does not carry over is on this screen as the resync leaves
      it: as on a new engine, but for the pen, which is left at the rendition
      of the last inked cell of the last row, and for an alternate screen,
      behind which a blank grid and a home cursor are saved. */
  predicate NothingElse(c: S.Core) {
    && !c.pendingWrap && c.cluster == None && c.autowrap && c.truncated == 0
    && c.scrollTop == 0 && c.scrollBottom == c.rows - 1
    && c.modes == S.NO_MODES && c.savedCursor == None
    && |c.grid| > 0 && c.pen == R.LastPen(c.grid)
    && c.altCursor == (if c.inAlt then Some(SavedCursor(0, 0, false, PLAIN)) else None)
    && c.savedGrid == (if c.inAlt then Some(BlankGrid(c.cols, c.rows, Default)) else None)
  }

  lemma PaintedSame(t: Tables, c: S.Core, lived: S.Core)
    requires S.Wf(c) && WfPalette(t.palette) && c == S.NewCore(t, c.cols, c.rows) && S.Wf(lived)
    requires lived.cols == c.cols && lived.rows == c.rows && lived.palette == t.palette
    ensures R.Painted(c, lived) == lived <==> NothingElse(lived)
  {
    assert |lived.grid| > 0;
    hide S.GridsOk, R.LastPen;
  }

  /** For every history: the cold resync leaves the client in the very state the
      history leads to if and only if every character on the screen stands
      alone and there is nothing else to carry over. */
  lemma ResyncIsLived(t: Tables, e: E.Engine, history: seq<u8>)
    requires Untouched(t, e) && !t.wide(32)
    ensures Resynced(t, e, history) == Lived(t, e, history) <==>
            Faithful(t, Lived(t, e, history).grid) && NothingElse(Lived(t, e, history))
  {
    var c, lived := e.display.core, Lived(t, e, history);
    SizeKept(t, e, history);
    ResyncIsExact(t, e, history);
    PaintedSame(t, c, lived);
    assert R.Rebuilt(lived, lived);
    hide S.NewCore, R.Rebuilt, R.Painted, Faithful, E.Feed, Resynced, NothingElse;
  }

  // ---------------------------------------------------------------- programs whose screens are always rebuilt

  /** A character that joins nothing and that nothing joins by itself. */
  predicate Alone(t: Tables, ch: u32) {
    !S.IsContinuer(t, ch) && !S.IsRegionalIndicator(ch)
  }

  /** A cell holds such a character, of the width the cell has; a tail any. */
  predicate Own(t: Tables, c: Cell) {
    && (c.attrs < 8 ==> Alone(t, c.codepoint) && !t.wide(c.codepoint))
    && (c.attrs / 8 == 1 ==> Alone(t, c.codepoint) && t.wide(c.codepoint))
  }

  function Owns(t: Tables): Cell -> bool {
    c => Own(t, c)
  }

  /** Pairs and characters together are what the repaint needs. */
  lemma OwnIsFaithful(t: Tables, g: Rows)
    requires RowsHold(Owns(t), g) && W.AllPaired(g)
    ensures Faithful(t, g)
  {
    forall r | 0 <= r < |g| ensures FaithfulRow(t, g[r]) {
      assert RowHolds(Owns(t), g[r]) && W.Paired(g[r]);
      OwnRow(t, g[r]);
    }
  }

  lemma OwnRow(t: Tables, row: Row)
    requires RowHolds(Owns(t), row) && W.Paired(row)
    ensures FaithfulRow(t, row)
  {
    forall k | 0 <= k < |row|
      ensures NarrowHere(t, row[k]) && (!IsTail(row[k]) ==> StandsAlone(t, row, k))
    {
      OwnCell(t, row, k);
    }
    hide W.Paired, IsTail, StandsAlone;
  }

  lemma OwnCell(t: Tables, row: Row, k: nat)
    requires RowHolds(Owns(t), row) && W.Paired(row) && k < |row|
    ensures NarrowHere(t, row[k]) && (!IsTail(row[k]) ==> StandsAlone(t, row, k))
  {
    assert Owns(t)(row[k]);
    W.KindOf(row, k);
    if k > 0 {
      W.KindOf(row, k - 1);
      assert Owns(t)(row[k - 1]);
      if IsTail(row[k - 1]) {
        assert Owns(t)(row[k - 2]);
      }
    }
    hide IsTail, IsLead, W.Paired, RowHolds;
  }

  /** A character that joins changes no cell, unless it is a regional
      indicator; any other must stand alone. */
  predicate PrintsPlainly(t: Tables, c: S.Core, a: Action) {
    a.Print? ==> if S.ShouldAppend(t, c, a.c) then !S.IsRegionalIndicator(a.c) else Alone(t, a.c)
  }

  /** A program that prints plainly and whose insertions split no pair. */
  ghost predicate Plain(t: Tables, c: S.Core, acts: seq<Action>)
    requires S.Wf(c)
    decreases acts
  {
    acts == [] || (PrintsPlainly(t, c, acts[0]) && !W.Splits(t, c, acts[0]) && Plain(t, S.StepCore(t, c, acts[0]), acts[1..]))
  }

  lemma PlainStep(t: Tables, c: S.Core, a: Action)
    requires S.Wf(c) && CellsHold(Owns(t), c) && PrintsPlainly(t, c, a) && Own(t, Blank(Default))
    ensures CellsHold(Owns(t), S.StepCore(t, c, a))
  {
    forall pen: Pen | a.Print? && !S.ShouldAppend(t, c, a.c)
      ensures if t.wide(a.c) then Owns(t)(Stamp(a.c, pen, WIDE_LEAD)) && Owns(t)(Stamp(a.c, pen, WIDE_TAIL))
              else Owns(t)(Stamp(a.c, pen, 0))
    {
      assert (Sgr(pen.attrs) + WIDE_LEAD) / 8 == 1 && (Sgr(pen.attrs) + WIDE_TAIL) / 8 == 2;
    }
    forall bg: Color ensures Owns(t)(Blank(bg)) {
    }
    hide CellsHold, S.Wf, S.StepCore, Owns;
    StepHolds(t, Owns(t), c, a);
  }

  lemma {:induction false} PlainRun(t: Tables, c: S.Core, acts: seq<Action>)
    requires S.Wf(c) && CellsHold(Owns(t), c) && W.PairsOk(c) && Plain(t, c, acts) && Own(t, Blank(Default))
    ensures CellsHold(Owns(t), S.StepAllCore(t, c, acts)) && W.PairsOk(S.StepAllCore(t, c, acts))
    decreases acts
  {
    hide CellsHold, S.Wf, S.StepCore, PrintsPlainly, Own, W.PairsOk, W.Splits;
    if acts != [] {
      PlainStep(t, c, acts[0]);
      W.StepSound(t, c, acts[0]);
      PlainRun(t, S.StepCore(t, c, acts[0]), acts[1..]);
    }
  }

  /** The screen of every such program is rebuilt, combining marks and joined
      sequences included. */
  lemma PlainIsExact(t: Tables, e: E.Engine, history: seq<u8>)
    requires Untouched(t, e) && Own(t, Blank(Default)) && Plain(t, e.display.core, P.Run(e.parser, history).acts)
    ensures R.Rebuilt(Resynced(t, e, history), Lived(t, e, history))
  {
    var c, acts := e.display.core, P.Run(e.parser, history).acts;
    forall bg: Color ensures Owns(t)(Blank(bg)) {
    }
    BlankRowHolds(Owns(t), c.cols, Default);
    assert CellsHold(Owns(t), c);
    W.NewSound(t, c.cols, c.rows);
    hide P.Run, S.StepAll, S.StepAllCore, CellsHold, W.PairsOk, S.NewCore, R.Rebuilt, R.Painted, ResyncBytes, S.Wf, Owns;
    PlainRun(t, c, acts);
    E.CoreRuns(t, e.display, acts);
    LivedCells(t, c, acts);
    hide E.Feed, Plain;
    ResyncIsExact(t, e, history);
  }

  lemma LivedCells(t: Tables, c: S.Core, acts: seq<Action>)
    requires S.Wf(c) && CellsHold(Owns(t), S.StepAllCore(t, c, acts)) && W.PairsOk(S.StepAllCore(t, c, acts))
    ensures Faithful(t, S.StepAllCore(t, c, acts).grid)
  {
    hide S.StepAllCore;
    OwnIsFaithful(t, S.StepAllCore(t, c, acts).grid);
  }

  // ---------------------------------------------------------------- what a resync loses

  /** The first regional indicator on a new screen. */
  lemma FirstIndicator(t: Tables, c: S.Core, a: u32)
    requires S.Wf(c) && WfPalette(t.palette) && c == S.NewCore(t, c.cols, c.rows) && c.cols >= 2 && W.NarrowRi(t, a)
    ensures var d := S.StepCore(t, c, Print(a));
            d.grid[0] == BlankRow(c.cols, Default)[0 := Cell(a, Default, Default, 0)]
  {
    hide S.GridsOk, S.PutRow;
    PutOnBlanks(BlankRow(c.cols, Default), 0, 1, a, PLAIN);
    assert S.WrapIfNeeded(c, 1) == c;
  }

  /** A second one joins it, and the cell becomes a pair. */
  lemma SecondIndicator(t: Tables, c: S.Core, b: u32)
    requires S.Wf(c) && S.IsRegionalIndicator(b) && c.cols >= 2 && c.cursorRow == 0
    requires c.cluster == Some(OpenCluster(0, 0, 1, false, true, 1))
    requires c.grid[0][0].attrs == 0 && c.grid[0][1] == Blank(Default)
    ensures var row := S.StepCore(t, c, Print(b)).grid[0];
            W.Pair(row, 0) && row[0].codepoint == c.grid[0][0].codepoint
  {
    ExpandOnBlanks(c.grid[0], 0, c.pen.bg);
    hide S.ExpandedRow;
  }

  /** Two regional indicators printed on a new screen: a pair that holds the
      first of them, a narrow character. */
  lemma FlagCells(t: Tables, c: S.Core, a: u32, b: u32)
    requires S.Wf(c) && WfPalette(t.palette) && c == S.NewCore(t, c.cols, c.rows) && c.cols >= 2
    requires W.NarrowRi(t, a) && S.IsRegionalIndicator(b)
    ensures var row := S.StepAllCore(t, c, [Print(a)] + [Print(b)]).grid[0];
            W.Pair(row, 0) && row[0].codepoint == a
  {
    hide S.GridsOk, S.StepAllCore, S.StepCore;
    var c1 := S.StepCore(t, c, Print(a));
    FirstIndicator(t, c, a);
    W.PrintRi(t, c, a);
    SecondIndicator(t, c1, b);
    S.StepAllCoreAppend(t, c, [Print(a)], [Print(b)]);
    S.StepOneCore(t, c, Print(a));
    S.StepOneCore(t, c1, Print(b));
  }

  /** Bytes that parse to actions, from an untouched engine. */
  lemma LivedActs(t: Tables, e: E.Engine, history: seq<u8>, acts: seq<Action>)
    requires Untouched(t, e) && Reads(history, acts)
    ensures Lived(t, e, history) == S.StepAllCore(t, e.display.core, acts)
  {
    E.IdleIsNew(e.parser, history);
    E.CoreRuns(t, e.display, acts);
    hide S.StepAllCore, S.StepAll, P.Run, S.NewCore;
  }

  /** A flag, that is two regional indicators, on a new screen is not rebuilt:
      the pair it fills is printed as its first indicator alone. */
  lemma FlagNotRebuilt(t: Tables, e: E.Engine, a: u32, b: u32)
    requires Untouched(t, e) && !t.wide(32) && e.display.core.cols >= 2
    requires W.NarrowRi(t, a) && S.IsRegionalIndicator(b)
    ensures !R.Rebuilt(Resynced(t, e, Utf8.Encode(a) + Utf8.Encode(b)), Lived(t, e, Utf8.Encode(a) + Utf8.Encode(b)))
  {
    var history := Utf8.Encode(a) + Utf8.Encode(b);
    ReadsChar(a);
    ReadsChar(b);
    ReadsBoth(Utf8.Encode(a), [Print(a)], Utf8.Encode(b), [Print(b)]);
    LivedActs(t, e, history, [Print(a)] + [Print(b)]);
    FlagCells(t, e.display.core, a, b);
    ResyncIsExact(t, e, history);
    hide S.StepAllCore, S.NewCore, R.Rebuilt, R.Painted, Utf8.Encode, Reads, Resynced, Lived;
    if Faithful(t, Lived(t, e, history).grid) {
      PairsHoldWide(t, Lived(t, e, history).grid, 0, 0);
    }
  }

  lemma PairsHoldWide(t: Tables, g: Rows, r: nat, k: nat)
    requires Faithful(t, g) && r < |g| && k < |g[r]| && W.Pair(g[r], k)
    ensures t.wide(g[r][k].codepoint)
  {
    W.Kinds(g[r], k);
    assert !IsBlankCell(g[r][k]);
    assert FaithfulRow(t, g[r]);
    assert StandsAlone(t, g[r], k);
  }

  lemma BlankFaithful(t: Tables, cols: nat, rows: nat)
    requires !t.wide(32)
    ensures Faithful(t, BlankGrid(cols, rows, Default))
    ensures rows > 0 ==> R.LastPen(BlankGrid(cols, rows, Default)) == PLAIN
  {
    var row := BlankRow(cols, Default);
    W.BlankPaired(cols, Default);
    assert InkEnd(row) == 0;
    assert FaithfulRow(t, row);
    hide FaithfulRow, InkEnd;
  }

  /** ESC 7, DECCKM, bold and a scroll region of the first two rows. */
  const REST: seq<Action> := [Esc([], 0x37)] + [PrivateAct(1, true)] + [Csi([1], [], false, 0x6d)] + [Csi([1, 2], [], false, 0x72)]

  function RestBytes(): seq<u8> {
    [0x1b, 0x37] + PrivateBytes(1, true) + CsiFidelity.Sequence([], [1], 0x6d) + CsiFidelity.Sequence([], [1, 2], 0x72)
  }

  lemma ReadsSave()
    ensures Reads([0x1b, 0x37], [Esc([], 0x37)])
  {
    var p := P.NEW.(state := P.Escape);
    CsiFidelity.RunOne(P.NEW, 0x1b);
    CsiFidelity.RunOne(p, 0x37);
    hide P.Run;
    CsiFidelity.RunSilent(P.NEW, [0x1b], p, [0x37]);
    assert [0x1b] + [0x37] == [0x1b, 0x37];
  }

  lemma ReadsRest()
    ensures Reads(RestBytes(), REST)
  {
    ReadsSave();
    ReadsNumbers([0x3f], [1], 0x68);
    ReadsNumbers([], [1], 0x6d);
    ReadsNumbers([], [1, 2], 0x72);
    hide Reads, CsiFidelity.Sequence;
    var a, b := [0x1b, 0x37] + PrivateBytes(1, true), [Esc([], 0x37)] + [PrivateAct(1, true)];
    ReadsBoth([0x1b, 0x37], [Esc([], 0x37)], PrivateBytes(1, true), [PrivateAct(1, true)]);
    ReadsBoth(a, b, CsiFidelity.Sequence([], [1], 0x6d), [Csi([1], [], false, 0x6d)]);
    ReadsBoth(a + CsiFidelity.Sequence([], [1], 0x6d), b + [Csi([1], [], false, 0x6d)],
              CsiFidelity.Sequence([], [1, 2], 0x72), [Csi([1, 2], [], false, 0x72)]);
  }

  lemma SaveStep(t: Tables, c: S.Core)
    requires S.Wf(c)
    ensures S.StepCore(t, c, Esc([], 0x37)) == c.(savedCursor := Some(S.Capture(c)))
  {
    hide S.Wf;
  }

  lemma BoldStep(t: Tables, c: S.Core)
    requires S.Wf(c) && c.pen == PLAIN
    ensures S.StepCore(t, c, Csi([1], [], false, 0x6d)) == c.(pen := PLAIN.(attrs := 1))
  {
    hide S.Wf;
    assert S.SgrFrom(PLAIN, [1], 0) == S.SgrFrom(S.SgrOne(PLAIN, 1), [1], 1);
  }

  lemma RegionStep(t: Tables, c: S.Core)
    requires S.Wf(c) && c.rows >= 3 && c.cursorRow == 0 && c.cursorCol == 0 && !c.pendingWrap && c.cluster == None
    requires c.scrollTop == 0
    ensures S.StepCore(t, c, Csi([1, 2], [], false, 0x72)) == c.(scrollBottom := 1)
  {
    hide S.GridsOk;
  }

  lemma RestSteps(t: Tables, c: S.Core)
    requires S.Wf(c) && WfPalette(t.palette) && c == S.NewCore(t, c.cols, c.rows) && c.rows >= 3
    ensures S.StepAllCore(t, c, REST)
         == c.(savedCursor := Some(SavedCursor(0, 0, false, PLAIN)), modes := S.NO_MODES.(appCursorKeys := true),
               pen := PLAIN.(attrs := 1), scrollBottom := 1)
  {
    hide S.StepAllCore, S.GridsOk, S.StepCore;
    var a0, a1, a2, a3 := Esc([], 0x37), PrivateAct(1, true), Csi([1], [], false, 0x6d), Csi([1, 2], [], false, 0x72);
    var c1 := c.(savedCursor := Some(SavedCursor(0, 0, false, PLAIN)));
    var c2 := c1.(modes := S.NO_MODES.(appCursorKeys := true));
    var c3 := c2.(pen := PLAIN.(attrs := 1));
    SaveStep(t, c);
    R.PrivateStep(t, c1, 1, true);
    BoldStep(t, c2);
    RegionStep(t, c3);
    S.StepOneCore(t, c, a0);
    S.StepOneCore(t, c2, a2);
    S.StepOneCore(t, c3, a3);
    S.StepAllCoreAppend(t, c, [a0] + [a1] + [a2], [a3]);
    S.StepAllCoreAppend(t, c, [a0] + [a1], [a2]);
    S.StepAllCoreAppend(t, c, [a0], [a1]);
  }

  /** The screen is rebuilt, but the client has forgotten the saved cursor, the
      input mode, the rendition and the region that the program set. */
  lemma RestForgotten(t: Tables, e: E.Engine)
    requires Untouched(t, e) && !t.wide(32) && e.display.core.rows >= 3
    ensures var client, lived := Resynced(t, e, RestBytes()), Lived(t, e, RestBytes());
            R.Rebuilt(client, lived) && client.modes != lived.modes && client.pen != lived.pen
            && client.scrollBottom != lived.scrollBottom && client.savedCursor != lived.savedCursor
  {
    var c := e.display.core;
    ReadsRest();
    LivedActs(t, e, RestBytes(), REST);
    RestSteps(t, c);
    ResyncIsExact(t, e, RestBytes());
    BlankFaithful(t, c.cols, c.rows);
    hide S.StepAllCore, RestBytes, Reads, Resynced, Lived, Faithful, REST;
  }

  // ---------------------------------------------------------------- what a resync adds

  /** To the last row, bold, one character, bold off. */
  function InkedActs(rows: u16, ch: u32): seq<Action> {
    [W.Move(rows, 1)] + [Csi([1], [], false, 0x6d)] + [Print(ch)] + [Csi([22], [], false, 0x6d)]
  }

  function InkedBytes(rows: u16, ch: u32): seq<u8>
    requires IsScalar(ch)
  {
    CsiFidelity.Sequence([], [rows, 1], 0x48) + CsiFidelity.Sequence([], [1], 0x6d) + Utf8.Encode(ch)
    + CsiFidelity.Sequence([], [22], 0x6d)
  }

  lemma ReadsInked(rows: u16, ch: u32)
    requires IsScalar(ch) && ch >= 0x20 && ch != 0x7f
    ensures Reads(InkedBytes(rows, ch), InkedActs(rows, ch))
  {
    ReadsNumbers([], [rows, 1], 0x48);
    ReadsNumbers([], [1], 0x6d);
    ReadsChar(ch);
    ReadsNumbers([], [22], 0x6d);
    hide Reads, CsiFidelity.Sequence, Utf8.Encode;
    var a, b, c := [W.Move(rows, 1)], [Csi([1], [], false, 0x6d)], [Print(ch)];
    var x, y := CsiFidelity.Sequence([], [rows, 1], 0x48), CsiFidelity.Sequence([], [1], 0x6d);
    ReadsBoth(x, a, y, b);
    ReadsBoth(x + y, a + b, Utf8.Encode(ch), c);
    ReadsBoth(x + y + Utf8.Encode(ch), a + b + c, CsiFidelity.Sequence([], [22], 0x6d), [Csi([22], [], false, 0x6d)]);
  }

  /** A narrow character that stands by itself. */
  predicate Letter(t: Tables, ch: u32) {
    IsScalar(ch) && ch >= 0x20 && ch != 0x7f && Alone(t, ch) && !t.wide(ch)
  }

  /** A letter printed on blanks, at the start of a row. */
  lemma LetterSteps(t: Tables, c: S.Core, ch: u32)
    requires S.Wf(c) && Letter(t, ch) && c.cluster == None && !c.pendingWrap && c.cursorCol == 0 && c.cols >= 2
    requires c.grid[c.cursorRow] == BlankRow(c.cols, Default)
    ensures S.StepCore(t, c, Print(ch))
         == c.(grid := c.grid[c.cursorRow := BlankRow(c.cols, Default)[0 := Cell(ch, c.pen.fg, c.pen.bg, Sgr(c.pen.attrs))]],
               cursorCol := 1, cluster := Some(OpenCluster(c.cursorRow, 0, 1, false, false, 1)))
  {
    hide S.GridsOk, S.PutRow;
    PutOnBlanks(BlankRow(c.cols, Default), 0, 1, ch, c.pen);
    assert S.WrapIfNeeded(c, 1) == c;
  }

  lemma BoldOffStep(t: Tables, c: S.Core)
    requires S.Wf(c) && c.pen == PLAIN.(attrs := 1)
    ensures S.StepCore(t, c, Csi([22], [], false, 0x6d)) == c.(pen := PLAIN)
  {
    hide S.Wf;
    assert S.SgrFrom(c.pen, [22], 0) == S.SgrFrom(S.SgrOne(c.pen, 22), [22], 1);
  }

  /** The last row once the letter is on it. */
  function InkedRow(cols: u16, ch: u32): Row
    requires cols > 0
  {
    BlankRow(cols, Default)[0 := Cell(ch, Default, Default, 1)]
  }

  lemma InkedSteps(t: Tables, c: S.Core, ch: u32)
    requires S.Wf(c) && WfPalette(t.palette) && c == S.NewCore(t, c.cols, c.rows) && c.cols >= 2 && Letter(t, ch)
    ensures S.StepAllCore(t, c, InkedActs(c.rows, ch))
         == c.(grid := c.grid[c.rows - 1 := InkedRow(c.cols, ch)], cursorRow := c.rows - 1, cursorCol := 1,
               cluster := Some(OpenCluster(c.rows - 1, 0, 1, false, false, 1)))
  {
    var a0, a1, a2, a3 := W.Move(c.rows, 1), Csi([1], [], false, 0x6d), Print(ch), Csi([22], [], false, 0x6d);
    var c1 := c.(cursorRow := c.rows - 1);
    var c2 := c1.(pen := PLAIN.(attrs := 1));
    var c3 := c2.(grid := c.grid[c.rows - 1 := InkedRow(c.cols, ch)], cursorCol := 1,
                  cluster := Some(OpenCluster(c.rows - 1, 0, 1, false, false, 1)));
    hide S.StepAllCore, S.GridsOk, S.StepCore;
    W.MoveStep(t, c, c.rows, 1);
    BoldStep(t, c1);
    LetterSteps(t, c2, ch);
    BoldOffStep(t, c3);
    S.StepOneCore(t, c, a0);
    S.StepOneCore(t, c1, a1);
    S.StepOneCore(t, c2, a2);
    S.StepOneCore(t, c3, a3);
    S.StepAllCoreAppend(t, c, [a0] + [a1] + [a2], [a3]);
    S.StepAllCoreAppend(t, c, [a0] + [a1], [a2]);
    S.StepAllCoreAppend(t, c, [a0], [a1]);
  }

  lemma OneInked(row: Row)
    requires |row| > 0 && !IsBlankCell(row[0]) && forall k :: 1 <= k < |row| ==> IsBlankCell(row[k])
    ensures InkEnd(row) == 1
  {
    hide IsBlankCell;
    var n := InkEnd(row);
    assert n > 0 ==> !IsBlankCell(row[n - 1]);
  }

  lemma InkedFaithful(t: Tables, cols: u16, ch: u32)
    requires cols >= 2 && !t.wide(32) && Letter(t, ch)
    ensures var row := InkedRow(cols, ch);
            FaithfulRow(t, row) && InkEnd(row) == 1 && PenAfter(row, 1) == PLAIN.(attrs := 1)
  {
    var row := InkedRow(cols, ch);
    OneInked(row);
    forall k | 0 <= k < cols ensures W.Sound(row, k) {
      assert W.Plain(row, k);
    }
    assert StandsAlone(t, row, 0);
  }

  lemma InkedGrid(t: Tables, cols: u16, rows: u16, ch: u32)
    requires cols >= 2 && rows > 0 && !t.wide(32) && Letter(t, ch)
    ensures var g := BlankGrid(cols, rows, Default)[rows - 1 := InkedRow(cols, ch)];
            Faithful(t, g) && R.LastPen(g) == PLAIN.(attrs := 1)
  {
    InkedFaithful(t, cols, ch);
    BlankFaithful(t, cols, rows);
    var blank := BlankGrid(cols, rows, Default);
    hide FaithfulRow, InkedRow, InkEnd, PenAfter;
    var g := blank[rows - 1 := InkedRow(cols, ch)];
    forall r | 0 <= r < rows ensures FaithfulRow(t, g[r]) {
      assert FaithfulRow(t, blank[r]);
    }
  }

  /** The rendition of the last inked cell leaks: after this history the host's
      pen is plain, but the client, whose screen is rebuilt, goes on in bold:
      the very next letter differs. */
  lemma PenLeaks(t: Tables, e: E.Engine, ch: u32, next: u32)
    requires Untouched(t, e) && !t.wide(32) && e.display.core.cols >= 2 && Letter(t, ch) && Letter(t, next)
    ensures var rows := e.display.core.rows;
            var client, lived := Resynced(t, e, InkedBytes(rows, ch)), Lived(t, e, InkedBytes(rows, ch));
            && R.Rebuilt(client, lived) && lived.pen == PLAIN && client.pen == PLAIN.(attrs := 1)
            && S.StepCore(t, client, Print(next)).grid != S.StepCore(t, lived, Print(next)).grid
  {
    var c := e.display.core;
    var bytes := InkedBytes(c.rows, ch);
    ReadsInked(c.rows, ch);
    LivedActs(t, e, bytes, InkedActs(c.rows, ch));
    InkedSteps(t, c, ch);
    InkedGrid(t, c.cols, c.rows, ch);
    ResyncIsExact(t, e, bytes);
    hide S.StepAllCore, InkedBytes, InkedActs, Reads, Faithful, InkedRow, R.LastPen, S.StepCore;
    var client, lived := Resynced(t, e, bytes), Lived(t, e, bytes);
    PaintedInked(t, c, lived);
    hide Resynced, Lived, R.Painted;
    NextLetter(t, client, next);
    NextLetter(t, lived, next);
  }

  lemma PaintedInked(t: Tables, c: S.Core, lived: S.Core)
    requires S.Wf(c) && WfPalette(t.palette) && c == S.NewCore(t, c.cols, c.rows) && S.Wf(lived) && !lived.inAlt
    ensures var d := R.Painted(c, lived);
            d.pen == R.LastPen(lived.grid) && d.cluster == None && !d.pendingWrap
  {
    hide S.GridsOk;
  }

  /** A letter takes the pen's rendition. */
  lemma NextLetter(t: Tables, c: S.Core, ch: u32)
    requires S.Wf(c) && Letter(t, ch) && !c.pendingWrap && !S.ShouldAppend(t, c, ch)
    ensures S.StepCore(t, c, Print(ch)).grid[c.cursorRow][c.cursorCol] == Cell(ch, c.pen.fg, c.pen.bg, Sgr(c.pen.attrs))
  {
    assert S.WrapIfNeeded(c, 1) == c;
    PutCell(c.grid[c.cursorRow], c.cursorCol, ch, c.pen);
    hide S.PutRow;
  }

  lemma PutCell(row: Row, col: nat, ch: u32, pen: Pen)
    requires col < |row|
    ensures S.PutRow(row, col, 1, ch, pen)[col] == Cell(ch, pen.fg, pen.bg, Sgr(pen.attrs))
  {
    hide Smash;
  }

  /** Onto the alternate screen without saving the cursor: the client has saved
      one all the same. */
  lemma CursorLeaks(t: Tables, e: E.Engine)
    requires Untouched(t, e) && !t.wide(32)
    ensures var client, lived := Resynced(t, e, PrivateBytes(1047, true)), Lived(t, e, PrivateBytes(1047, true));
            R.Rebuilt(client, lived) && client.altCursor.Some? && lived.altCursor == None
  {
    var c := e.display.core;
    ReadsNumbers([0x3f], [1047], 0x68);
    LivedActs(t, e, PrivateBytes(1047, true), [PrivateAct(1047, true)]);
    R.PrivateStep(t, c, 1047, true);
    ResyncIsExact(t, e, PrivateBytes(1047, true));
    BlankFaithful(t, c.cols, c.rows);
    AltLeft(t, c);
    hide S.StepAllCore, Reads, Resynced, Lived, Faithful, S.GridsOk, S.EnterAlt, R.Painted;
  }

  lemma AltLeft(t: Tables, c: S.Core)
    requires c.cols > 0 && c.rows > 0 && WfPalette(t.palette) && c == S.NewCore(t, c.cols, c.rows)
    ensures var d := S.EnterAlt(c, false);
            d.grid == BlankGrid(c.cols, c.rows, Default) && d.altCursor == None && R.Painted(c, d).altCursor.Some?
  {
    hide S.GridsOk, R.LastPen;
  }
}
