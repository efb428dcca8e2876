/** Every run of calls a host can make, and what holds after each. */
module HostRuns {
  import opened VtTypes
  import opened EngineSpec
  import opened DamageProof
  import P = ParserSpec
  import S = ScreenSpec
  import W = WidePairs
  import C = Checkpoint
  import Flat

  /** `Import` stands for importing a blob that some export of `core` wrote. */
  datatype Call =
    | FeedBytes(bytes: seq<u8>)
    | Resize(cols: u16, rows: u16)
    | SetPalette(palette: Palette)
    | Import(core: S.Core)
    | Reset
    | Snapshot
    | TakeReplies
    | TakeScrolledOff
    | DiscardReplies(on: bool)

  ghost predicate Allowed(call: Call) {
    match call
    case SetPalette(p) => WfPalette(p)
    case Import(c) => S.Wf(c)
    case _ => true
  }

  function New(t: Tables, cols: u16, rows: u16): (e: Engine)
    requires cols > 0 && rows > 0 && WfPalette(t.palette)
    ensures Wf(e)
  {
    Engine(P.NEW, S.Display(S.NewCore(t, cols, rows), S.NEW_FX))
  }

  function WithDisplay(e: Engine, c: S.Core, f: S.Fx): Engine {
    Engine(e.parser, S.Display(c, f))
  }

  function Do(t: Tables, e: Engine, call: Call): (f: Engine)
    requires Wf(e) && Allowed(call) && WfPalette(t.palette)
    ensures Wf(f)
  {
    var c, fx := e.display.core, e.display.fx;
    match call
    case FeedBytes(bytes) => Feed(t, e, bytes)
    case Resize(cols, rows) =>
      if cols == 0 || rows == 0 then e else WithDisplay(e, S.Resize(c, cols, rows), S.FullDamage(fx))
    case SetPalette(p) => WithDisplay(e, c.(palette := p), S.FullDamage(fx))
    case Import(core) => Restored(e, core)
    case Reset => New(t, c.cols, c.rows)
    case Snapshot => WithDisplay(e, c, fx.(damage := S.NO_DAMAGE))
    case TakeReplies => WithDisplay(e, c, fx.(replies := []))
    case TakeScrolledOff => WithDisplay(e, c, fx.(scrolledOff := []))
    case DiscardReplies(on) => WithDisplay(e, c, fx.(discard := on))
  }

  ghost predicate AllAllowed(calls: seq<Call>) {
    forall i :: 0 <= i < |calls| ==> Allowed(calls[i])
  }

  function DoAll(t: Tables, e: Engine, calls: seq<Call>): (f: Engine)
    requires Wf(e) && AllAllowed(calls) && WfPalette(t.palette)
    ensures Wf(f)
    decreases calls
  {
    if calls == [] then e else DoAll(t, Do(t, e, calls[0]), calls[1..])
  }

  lemma {:induction false} DoAllAppend(t: Tables, e: Engine, a: seq<Call>, b: seq<Call>)
    requires Wf(e) && AllAllowed(a) && AllAllowed(b) && WfPalette(t.palette)
    ensures AllAllowed(a + b) && DoAll(t, e, a + b) == DoAll(t, DoAll(t, e, a), b)
    decreases a
  {
    hide Wf, Do, Allowed;
    if a == [] {
      assert a + b == b;
    } else {
      assert (a + b)[1..] == a[1..] + b;
      DoAllAppend(t, Do(t, e, a[0]), a[1..], b);
    }
  }

  // ---------------------------------------------------------------- damage over every run

  ghost predicate Shows(t: Tables, shown: seq<seq<PodCell>>, e: Engine) {
    Tracks(t, shown, e.display.core, e.display.fx)
  }

  /** The rows of a snapshot's one list of cells. */
  function PodRows(pod: PodGrid): (rows: seq<seq<PodCell>>)
    ensures |rows| == pod.rows
  {
    seq(pod.rows, r requires 0 <= r < pod.rows => PodSlice(pod, r))
  }

  function PodSlice(pod: PodGrid, r: nat): seq<PodCell> {
    if 0 <= r * pod.cols <= r * pod.cols + pod.cols <= |pod.cells| then pod.cells[r * pod.cols..r * pod.cols + pod.cols] else []
  }

  function PodDamage(pod: PodGrid): S.Damage {
    S.Damage(pod.fullDamage, pod.damageRow0, pod.damageRow1)
  }

  /** Row by row, a snapshot is the painted grid; and it says where the cursor
      is and whether it shows, what a default cell looks like, and how many
      scalars and answers were lost. */
  lemma PodIsPainted(t: Tables, c: S.Core, f: S.Fx)
    requires S.Wf(c)
    ensures PodRows(S.PodOf(t, c, f)) == Painted(t, c) && PodDamage(S.PodOf(t, c, f)) == f.damage
    ensures var pod := S.PodOf(t, c, f);
            && pod.cursorRow == c.cursorRow < pod.rows == c.rows && pod.cursorCol == c.cursorCol < pod.cols == c.cols
            && pod.cursorVisible == c.cursorVisible
            && PodCell(32, pod.defaultFg, pod.defaultBg, 0) == Pod(t, c.palette, Blank(Default))
            && pod.truncated == c.truncated && pod.repliesDropped == f.dropped
  {
    PodTells(t, c, f);
    var pod, now := S.PodOf(t, c, f), Painted(t, c);
    hide S.PodOf, Painted, PodRows, PodSlice;
    PodHas(t, c, f);
    forall r | 0 <= r < c.rows ensures PodRows(pod)[r] == now[r] {
      PodRowIs(t, c, f, r);
    }
  }

  lemma PodTells(t: Tables, c: S.Core, f: S.Fx)
    requires S.Wf(c)
    ensures var pod := S.PodOf(t, c, f);
            && pod.cursorRow == c.cursorRow < pod.rows == c.rows && pod.cursorCol == c.cursorCol < pod.cols == c.cols
            && pod.cursorVisible == c.cursorVisible
            && PodCell(32, pod.defaultFg, pod.defaultBg, 0) == Pod(t, c.palette, Blank(Default))
            && pod.truncated == c.truncated && pod.repliesDropped == f.dropped
  {
    hide Flat.Flatten, S.GridsOk;
  }

  lemma PodHas(t: Tables, c: S.Core, f: S.Fx)
    requires S.Wf(c)
    ensures var pod := S.PodOf(t, c, f);
            pod.rows == c.rows && pod.cols == c.cols && PodDamage(pod) == f.damage
            && |PodRows(pod)| == c.rows == |Painted(t, c)|
  {
    hide Flat.Flatten;
  }

  lemma PodRowIs(t: Tables, c: S.Core, f: S.Fx, r: nat)
    requires S.Wf(c) && r < c.rows
    ensures PodRows(S.PodOf(t, c, f))[r] == PodRow(t, c.palette, c.grid[r]) == Painted(t, c)[r]
  {
    Flat.FlattenAt(c.grid, c.cols, r);
    var cells := Flat.Flatten(c.grid);
    hide Flat.Flatten;
    PodRowSlice(t, c.palette, cells, r * c.cols, r * c.cols + c.cols);
  }

  lemma PodRowSlice(t: Tables, p: Palette, cells: seq<Cell>, from: nat, end: nat)
    requires from <= end <= |cells|
    ensures PodRow(t, p, cells)[from..end] == PodRow(t, p, cells[from..end])
  {
    hide Pod;
  }

  /** A renderer copies the damaged rows of every snapshot over what it shows. */
  function Rendered(t: Tables, shown: seq<seq<PodCell>>, e: Engine, call: Call): seq<seq<PodCell>> {
    if call.Snapshot? then
      var pod := S.PodOf(t, e.display.core, e.display.fx);
      Repaint(shown, PodRows(pod), PodDamage(pod))
    else shown
  }

  function RenderedAll(t: Tables, shown: seq<seq<PodCell>>, e: Engine, calls: seq<Call>): seq<seq<PodCell>>
    requires Wf(e) && AllAllowed(calls) && WfPalette(t.palette)
    decreases calls
  {
    if calls == [] then shown else RenderedAll(t, Rendered(t, shown, e, calls[0]), Do(t, e, calls[0]), calls[1..])
  }

  lemma DoShows(t: Tables, shown: seq<seq<PodCell>>, e: Engine, call: Call)
    requires Wf(e) && Allowed(call) && WfPalette(t.palette) && Shows(t, shown, e)
    ensures Shows(t, Rendered(t, shown, e, call), Do(t, e, call))
  {
    if call.FeedBytes? {
      var acts := P.Run(e.parser, call.bytes).acts;
      var d, d' := e.display, S.StepAll(t, e.display, acts);
      RunReports(t, d, acts);
      hide Reports, Tracks, P.Run, S.StepAll;
      ReportsTracks(t, shown, d.core, d.fx, d'.core, d'.fx);
    } else if call.Snapshot? {
      PodIsPainted(t, e.display.core, e.display.fx);
      TracksRepaints(t, shown, e.display.core, e.display.fx);
      hide PodRows, S.PodOf;
    } else {
      hide S.ResizeGrids;
    }
  }

  lemma {:induction false} DoAllShows(t: Tables, shown: seq<seq<PodCell>>, e: Engine, calls: seq<Call>)
    requires Wf(e) && AllAllowed(calls) && WfPalette(t.palette) && Shows(t, shown, e)
    ensures Shows(t, RenderedAll(t, shown, e, calls), DoAll(t, e, calls))
    decreases calls
  {
    if calls != [] {
      DoShows(t, shown, e, calls[0]);
      hide Do, Shows, Wf, Rendered;
      DoAllShows(t, Rendered(t, shown, e, calls[0]), Do(t, e, calls[0]), calls[1..]);
    }
  }

  /** From a new engine, whatever the host does and whenever it takes its
      snapshots: a renderer that started with anything at all and copies only
      the damaged rows of each shows the whole grid after the next one. */
  lemma RendererIsExact(t: Tables, cols: u16, rows: u16, shown: seq<seq<PodCell>>, calls: seq<Call>)
    requires cols > 0 && rows > 0 && WfPalette(t.palette) && AllAllowed(calls)
    ensures var e := DoAll(t, New(t, cols, rows), calls);
            Rendered(t, RenderedAll(t, shown, New(t, cols, rows), calls), e, Snapshot)
            == PodRows(S.PodOf(t, e.display.core, e.display.fx)) == Painted(t, e.display.core)
  {
    var start := New(t, cols, rows);
    DoAllShows(t, shown, start, calls);
    hide DoAll, RenderedAll, S.NewCore, PodRows, S.PodOf;
    var e := DoAll(t, start, calls);
    PodIsPainted(t, e.display.core, e.display.fx);
    TracksRepaints(t, RenderedAll(t, shown, start, calls), e.display.core, e.display.fx);
  }

  // ---------------------------------------------------------------- recovery over every run

  /** No host call tells apart two engines that bytes do not. */
  lemma DoSame(t: Tables, e: Engine, f: Engine, call: Call)
    requires Wf(e) && Wf(f) && SameFuture(e, f) && Allowed(call) && WfPalette(t.palette)
    ensures SameFuture(Do(t, e, call), Do(t, f, call))
  {
    if call.FeedBytes? {
      FeedSame(t, e, f, call.bytes);
    }
    hide Feed, S.Wf, P.Wf, S.Resize, S.NewCore;
  }

  lemma {:induction false} DoAllSame(t: Tables, e: Engine, f: Engine, calls: seq<Call>)
    requires Wf(e) && Wf(f) && SameFuture(e, f) && AllAllowed(calls) && WfPalette(t.palette)
    ensures SameFuture(DoAll(t, e, calls), DoAll(t, f, calls))
    decreases calls
  {
    if calls != [] {
      DoSame(t, e, f, calls[0]);
      hide Do, SameFuture, Wf, Allowed;
      DoAllSame(t, Do(t, e, calls[0]), Do(t, f, calls[0]), calls[1..]);
    }
  }

  /** Recovery over host calls. Whatever `before` did to an engine that is now
      idle, its checkpoint, imported into any other engine, and `after` lead to
      the state that `before` and `after` straight through lead to: ready to
      export exactly when that one is, and with the same blob. */
  lemma RecoveryOverCalls(t: Tables, e: Engine, other: Engine, before: seq<Call>, after: seq<Call>, offset: u64, next: u64)
    requires Wf(e) && AllAllowed(before) && AllAllowed(after) && WfPalette(t.palette)
    requires P.IsIdle(DoAll(t, e, before).parser)
    ensures var core := DoAll(t, e, before).display.core;
            && C.Import(C.Export(core, offset)) == C.Ok((offset, core))
            && Wf(Restored(other, core)) && AllAllowed(before + after)
            && var there, here := DoAll(t, e, before + after), DoAll(t, Restored(other, core), after);
               SameFuture(there, here) && P.IsIdle(there.parser) == P.IsIdle(here.parser)
               && C.Export(here.display.core, next) == C.Export(there.display.core, next)
  {
    hide DoAll, C.Export, C.Import, S.Wf, P.Wf, P.Settled, AllAllowed, Restored, P.IsIdle;
    var host := DoAll(t, e, before);
    DoAllAppend(t, e, before, after);
    C.ImportExport(host.display.core, offset);
    RestoredSame(host, other);
    var copy := Restored(other, host.display.core);
    DoAllSame(t, host, copy, after);
    SameIdle(DoAll(t, host, after), DoAll(t, copy, after));
  }

  lemma SameIdle(e: Engine, f: Engine)
    requires SameFuture(e, f)
    ensures P.IsIdle(e.parser) == P.IsIdle(f.parser) && e.display.core == f.display.core
  {
  }

  lemma RestoredSame(host: Engine, other: Engine)
    requires Wf(host) && P.IsIdle(host.parser)
    ensures Wf(Restored(other, host.display.core)) && SameFuture(host, Restored(other, host.display.core))
  {
    hide S.Wf;
  }

  // ---------------------------------------------------------------- what the host sees after recovery

  /** What a call hands out. A snapshot counts for its cells, its cursor and its
      colours, not for its damage and its count of dropped replies. */
  datatype Sight = Nothing | Screen(pod: PodGrid) | Owed(replies: seq<u8>) | Gone(rows: seq<seq<PodCell>>)

  function Undamaged(pod: PodGrid): PodGrid {
    pod.(fullDamage := true, damageRow0 := 0, damageRow1 := 0, repliesDropped := 0)
  }

  function GoneRows(t: Tables, p: Palette, rows: seq<seq<Cell>>): (r: seq<seq<PodCell>>)
    ensures |r| == |rows|
  {
    seq(|rows|, i requires 0 <= i < |rows| => PodRow(t, p, rows[i]))
  }

  function Seen(t: Tables, e: Engine, call: Call): Sight {
    var c, fx := e.display.core, e.display.fx;
    match call
    case Snapshot => Screen(Undamaged(S.PodOf(t, c, fx)))
    case TakeReplies => Owed(fx.replies)
    case TakeScrolledOff => Gone(GoneRows(t, c.palette, fx.scrolledOff))
    case _ => Nothing
  }

  function SeenAll(t: Tables, e: Engine, calls: seq<Call>): seq<Sight>
    requires Wf(e) && AllAllowed(calls) && WfPalette(t.palette)
    decreases calls
  {
    if calls == [] then [] else [Seen(t, e, calls[0])] + SeenAll(t, Do(t, e, calls[0]), calls[1..])
  }

  /** The side state a host sees: all but the damage and the dropped count. */
  function Outward(f: S.Fx): S.Fx {
    f.(damage := S.NO_DAMAGE, dropped := 0)
  }

  ghost predicate SameSight(e: Engine, f: Engine) {
    SameFuture(e, f) && Outward(e.display.fx) == Outward(f.display.fx)
  }

  lemma {:induction false} ScrollOutward(c: S.Core, f: S.Fx, g: S.Fx, n: nat)
    requires S.Wf(c) && Outward(f) == Outward(g)
    ensures Outward(S.ScrollUpTimesFx(c, f, n)) == Outward(S.ScrollUpTimesFx(c, g, n))
  {
    if n > 0 {
      ScrollOutward(c, f, g, n - 1);
      hide S.ScrollUpTimes;
    }
  }

  lemma {:induction false} PrivateOutward(c: S.Core, f: S.Fx, g: S.Fx, params: seq<u16>, n: nat, on: bool)
    requires S.Wf(c) && n <= |params| && Outward(f) == Outward(g)
    ensures Outward(S.PrivateModesFx(c, f, params, n, on)) == Outward(S.PrivateModesFx(c, g, params, n, on))
  {
    if n > 0 {
      PrivateOutward(c, f, g, params, n - 1, on);
      hide S.PrivateModes;
    }
  }

  lemma DamageOutward(c: S.Core, f: S.Fx, from: nat, to: nat, n: u16)
    requires S.Wf(c) && to <= c.cols * c.rows
    ensures Outward(S.EraseFx(c, f, from, to)) == Outward(f)
    ensures Outward(S.LinesFx(c, f, n)) == Outward(f) == Outward(S.CellsFx(c, f, n))
  {
    hide S.Wf;
  }

  lemma EditOutward(c: S.Core, f: S.Fx, g: S.Fx, params: seq<u16>, fin: u8)
    requires S.Wf(c) && S.IsEdit(fin) && Outward(f) == Outward(g)
    ensures Outward(S.EditFx(c, f, params, fin)) == Outward(S.EditFx(c, g, params, fin))
  {
    var n, mode := S.CsiN(params, 0, 1), S.CsiN(params, 0, 0);
    var all, line, chars := S.DisplaySpan(c, mode), S.LineSpan(c, mode), S.CharSpan(c, n);
    ScrollOutward(c, f, g, n);
    forall x | x == f || x == g
      ensures Outward(S.EraseFx(c, x, all.0, all.1)) == Outward(x) && Outward(S.LinesFx(c, x, n)) == Outward(x)
      ensures Outward(S.EraseFx(c, x, line.0, line.1)) == Outward(x) && Outward(S.CellsFx(c, x, n)) == Outward(x)
      ensures Outward(S.EraseFx(c, x, chars.0, chars.1)) == Outward(x)
    {
      DamageOutward(c, x, all.0, all.1, n);
      DamageOutward(c, x, line.0, line.1, n);
      DamageOutward(c, x, chars.0, chars.1, n);
    }
    hide S.ScrollUpTimesFx, S.DisplaySpan, S.LineSpan, S.CharSpan, S.CsiN, S.Wf, S.EraseFx, S.LinesFx, S.CellsFx;
  }

  lemma CsiOutward(c: S.Core, f: S.Fx, g: S.Fx, params: seq<u16>, fin: u8)
    requires S.Wf(c) && Outward(f) == Outward(g)
    ensures Outward(S.CsiFx(c, f, params, fin)) == Outward(S.CsiFx(c, g, params, fin))
  {
    if S.IsEdit(fin) {
      EditOutward(c, f, g, params, fin);
    }
    hide S.EditFx, S.IsEdit, S.CursorReport, S.CsiN, S.Wf;
  }

  lemma WriteOutward(t: Tables, c: S.Core, f: S.Fx, g: S.Fx, ch: u32)
    requires S.Wf(c) && Outward(f) == Outward(g)
    ensures Outward(S.WriteCharFx(t, c, f, ch)) == Outward(S.WriteCharFx(t, c, g, ch))
  {
    hide S.WrapIfNeeded, S.Wf, S.IsContinuer;
  }

  lemma ControlOutward(c: S.Core, f: S.Fx, g: S.Fx, b: u8)
    requires S.Wf(c) && Outward(f) == Outward(g)
    ensures Outward(S.ExecuteFx(c, f, b)) == Outward(S.ExecuteFx(c, g, b))
    ensures Outward(S.EscFx(c, f, b)) == Outward(S.EscFx(c, g, b))
  {
    hide S.Wf;
  }

  /** Damage and the count of dropped replies never reach what the host sees. */
  lemma StepOutward(t: Tables, c: S.Core, f: S.Fx, g: S.Fx, a: Action)
    requires S.Wf(c) && Outward(f) == Outward(g)
    ensures Outward(S.StepFx(t, c, f, a)) == Outward(S.StepFx(t, c, g, a))
  {
    if a.Csi? {
      PrivateOutward(c, f, g, a.params, |a.params|, a.fin == 0x68);
      CsiOutward(c, f, g, a.params, a.fin);
      hide S.PrivateModesFx, S.CsiFx, S.Wf;
    } else {
      hide S.WriteCharFx, S.ExecuteFx, S.EscFx, S.Wf;
      if a.Print? {
        WriteOutward(t, c, f, g, a.c);
      } else if !a.Osc? {
        ControlOutward(c, f, g, if a.Execute? then a.b else a.final);
      }
    }
  }

  lemma {:induction false} StepAllOutward(t: Tables, d: S.Display, e: S.Display, acts: seq<Action>)
    requires S.Wf(d.core) && d.core == e.core && Outward(d.fx) == Outward(e.fx)
    ensures S.StepAll(t, d, acts).core == S.StepAll(t, e, acts).core
    ensures Outward(S.StepAll(t, d, acts).fx) == Outward(S.StepAll(t, e, acts).fx)
    decreases acts
  {
    if acts != [] {
      StepOutward(t, d.core, d.fx, e.fx, acts[0]);
      hide S.StepCore, S.StepFx, Outward, S.Wf;
      StepAllOutward(t, S.Step(t, d, acts[0]), S.Step(t, e, acts[0]), acts[1..]);
    }
  }

  lemma DoSameSight(t: Tables, e: Engine, f: Engine, call: Call)
    requires Wf(e) && Wf(f) && SameSight(e, f) && Allowed(call) && WfPalette(t.palette)
    ensures Seen(t, e, call) == Seen(t, f, call)
    ensures SameSight(Do(t, e, call), Do(t, f, call))
  {
    DoSame(t, e, f, call);
    if call.FeedBytes? {
      FeedSameSight(t, e, f, call.bytes);
    }
    hide Feed, S.Wf, P.Wf, S.Resize, S.NewCore, SameFuture, PodRow;
    SameCore(e, f);
  }

  lemma SameCore(e: Engine, f: Engine)
    requires SameFuture(e, f)
    ensures e.display.core == f.display.core
  {
  }

  lemma FeedSameSight(t: Tables, e: Engine, f: Engine, bytes: seq<u8>)
    requires Wf(e) && Wf(f) && SameSight(e, f)
    ensures SameSight(Feed(t, e, bytes), Feed(t, f, bytes))
  {
    RunSame(e.parser, f.parser, bytes);
    hide P.Run, S.StepAll, S.Wf, P.Wf, Outward;
    StepAllOutward(t, e.display, f.display, P.Run(e.parser, bytes).acts);
  }

  lemma {:induction false} DoAllSameSight(t: Tables, e: Engine, f: Engine, calls: seq<Call>)
    requires Wf(e) && Wf(f) && SameSight(e, f) && AllAllowed(calls) && WfPalette(t.palette)
    ensures SeenAll(t, e, calls) == SeenAll(t, f, calls)
    decreases calls
  {
    if calls != [] {
      DoSameSight(t, e, f, calls[0]);
      hide Do, Seen, SameSight, Wf, Allowed;
      DoAllSameSight(t, Do(t, e, calls[0]), Do(t, f, calls[0]), calls[1..]);
    }
  }

  /** The host has taken what was owed and wants replies. */
  function Drained(t: Tables, e: Engine): (f: Engine)
    requires Wf(e) && WfPalette(t.palette)
    ensures Wf(f)
  {
    Do(t, Do(t, Do(t, e, TakeReplies), TakeScrolledOff), DiscardReplies(false))
  }

  /** Recovery as the host sees it. Whatever came before, let the engine be idle
      and drained when its checkpoint is taken. Any engine that imports it and
      whose own log of rows is drained then hands out, at every later call and
      whatever the calls are, the very snapshots, replies and scrolled-off rows
      that the first engine hands out. */
  lemma RecoveryIsUnseen(t: Tables, e: Engine, other: Engine, after: seq<Call>)
    requires Wf(e) && P.IsIdle(e.parser) && AllAllowed(after) && WfPalette(t.palette)
    ensures Wf(Restored(other, e.display.core))
    ensures SeenAll(t, Drained(t, e), after)
         == SeenAll(t, Do(t, Restored(other, e.display.core), TakeScrolledOff), after)
  {
    RestoredSame(e, other);
    DrainedSame(t, e, other);
    hide SeenAll, Do, Drained, Restored, SameSight, Wf;
    DoAllSameSight(t, Drained(t, e), Do(t, Restored(other, e.display.core), TakeScrolledOff), after);
  }

  lemma DrainedSame(t: Tables, e: Engine, other: Engine)
    requires Wf(e) && P.IsIdle(e.parser) && WfPalette(t.palette)
    requires Wf(Restored(other, e.display.core)) && SameFuture(e, Restored(other, e.display.core))
    ensures SameSight(Drained(t, e), Do(t, Restored(other, e.display.core), TakeScrolledOff))
  {
    hide S.Wf, P.Wf;
  }

  // ---------------------------------------------------------------- safety over every run

  /** The bounds on memory a byte stream can claim. */
  ghost predicate Bounded(e: Engine) {
    && Wf(e)
    && |e.display.fx.replies| <= S.REPLY_CAP
    && |e.parser.params| <= 32 && |e.parser.inters| <= 2 && |e.parser.osc| <= 1024 && |e.parser.utf8| <= 4
  }

  /** Damage is all that erasing, inserting and deleting touch outside the core. */
  lemma DamageOnly(c: S.Core, f: S.Fx, from: nat, to: nat, n: u16)
    requires S.Wf(c) && to <= c.cols * c.rows
    ensures S.EraseFx(c, f, from, to).replies == f.replies
    ensures S.LinesFx(c, f, n).replies == f.replies
    ensures S.CellsFx(c, f, n).replies == f.replies
  {
    hide S.Wf;
  }

  lemma EditReplies(c: S.Core, f: S.Fx, params: seq<u16>, fin: u8)
    requires S.Wf(c) && S.IsEdit(fin)
    ensures S.EditFx(c, f, params, fin).replies == f.replies
  {
    var n, mode := S.CsiN(params, 0, 1), S.CsiN(params, 0, 0);
    ScrollReplies(c, f, n);
    var all, line, chars := S.DisplaySpan(c, mode), S.LineSpan(c, mode), S.CharSpan(c, n);
    DamageOnly(c, f, all.0, all.1, n);
    DamageOnly(c, f, line.0, line.1, n);
    DamageOnly(c, f, chars.0, chars.1, n);
    hide S.ScrollUpTimesFx, S.DisplaySpan, S.LineSpan, S.CharSpan, S.CsiN, S.Wf, S.EraseFx, S.LinesFx, S.CellsFx;
  }

  lemma CsiReplies(c: S.Core, f: S.Fx, params: seq<u16>, fin: u8)
    requires S.Wf(c) && |f.replies| <= S.REPLY_CAP
    ensures |S.CsiFx(c, f, params, fin).replies| <= S.REPLY_CAP
  {
    if S.IsEdit(fin) {
      EditReplies(c, f, params, fin);
    }
    hide S.EditFx, S.IsEdit, S.CursorReport, S.CsiN, S.Wf;
  }

  lemma StepReplies(t: Tables, c: S.Core, f: S.Fx, a: Action)
    requires S.Wf(c) && |f.replies| <= S.REPLY_CAP
    ensures |S.StepFx(t, c, f, a).replies| <= S.REPLY_CAP
  {
    if a.Csi? {
      PrivateReplies(c, f, a.params, |a.params|, a.fin == 0x68);
      CsiReplies(c, f, a.params, a.fin);
      hide S.PrivateModesFx, S.CsiFx, S.Wf;
    } else {
      hide S.WrapIfNeeded, S.Wf;
    }
  }

  lemma {:induction false} PrivateReplies(c: S.Core, f: S.Fx, params: seq<u16>, n: nat, on: bool)
    requires S.Wf(c) && n <= |params|
    ensures S.PrivateModesFx(c, f, params, n, on).replies == f.replies
  {
    if n > 0 {
      PrivateReplies(c, f, params, n - 1, on);
      hide S.PrivateModes;
    }
  }

  lemma {:induction false} ScrollReplies(c: S.Core, f: S.Fx, n: nat)
    requires S.Wf(c)
    ensures S.ScrollUpTimesFx(c, f, n).replies == f.replies
  {
    if n > 0 {
      ScrollReplies(c, f, n - 1);
      hide S.ScrollUpTimes;
    }
  }

  lemma {:induction false} StepAllReplies(t: Tables, d: S.Display, acts: seq<Action>)
    requires S.Wf(d.core) && |d.fx.replies| <= S.REPLY_CAP
    ensures |S.StepAll(t, d, acts).fx.replies| <= S.REPLY_CAP
    decreases acts
  {
    if acts != [] {
      StepReplies(t, d.core, d.fx, acts[0]);
      hide S.StepCore, S.StepFx;
      StepAllReplies(t, S.Step(t, d, acts[0]), acts[1..]);
    }
  }

  lemma DoBounded(t: Tables, e: Engine, call: Call)
    requires Bounded(e) && Allowed(call) && WfPalette(t.palette)
    ensures Bounded(Do(t, e, call))
  {
    if call.FeedBytes? {
      StepAllReplies(t, e.display, P.Run(e.parser, call.bytes).acts);
    }
    hide S.StepAll, P.Run, S.Resize, S.NewCore;
  }

  /** From a new engine of any size, every run of calls over every byte stream
      keeps the grid, the cursor, the region, the saved grid and the cluster
      in shape and every buffer within its bound. */
  lemma {:induction false} EveryRunIsSafe(t: Tables, e: Engine, calls: seq<Call>)
    requires Bounded(e) && AllAllowed(calls) && WfPalette(t.palette)
    ensures Bounded(DoAll(t, e, calls))
    decreases calls
  {
    if calls != [] {
      DoBounded(t, e, calls[0]);
      hide Do, Bounded;
      EveryRunIsSafe(t, Do(t, e, calls[0]), calls[1..]);
    }
  }

  lemma NewIsSafe(t: Tables, cols: u16, rows: u16, calls: seq<Call>)
    requires cols > 0 && rows > 0 && WfPalette(t.palette) && AllAllowed(calls)
    ensures Bounded(DoAll(t, New(t, cols, rows), calls))
  {
    hide DoAll, S.NewCore;
    EveryRunIsSafe(t, New(t, cols, rows), calls);
  }

  // ---------------------------------------------------------------- wide pairs over every run

  /** No call of the run splits a pair: no RI expansion onto a tail, no
      insertion that opens a pair or pushes half of one out, no resize that
      cuts one; and only checkpoints of whole screens are imported. */
  ghost predicate SplitsNothing(t: Tables, e: Engine, call: Call)
    requires Wf(e)
  {
    var c := e.display.core;
    match call
    case FeedBytes(bytes) => W.NeverSplits(t, c, P.Run(e.parser, bytes).acts)
    case Resize(cols, rows) =>
      !W.CutSplitsGrid(c.grid, cols, rows)
      && (c.savedGrid.Some? ==> !W.CutSplitsGrid(c.savedGrid.value, cols, rows))
    case Import(core) => W.PairsOk(core)
    case _ => true
  }

  ghost predicate RunSplitsNothing(t: Tables, e: Engine, calls: seq<Call>)
    requires Wf(e) && AllAllowed(calls) && WfPalette(t.palette)
    decreases calls
  {
    calls == [] || (SplitsNothing(t, e, calls[0]) && RunSplitsNothing(t, Do(t, e, calls[0]), calls[1..]))
  }

  lemma DoKeepsPairs(t: Tables, e: Engine, call: Call)
    requires Wf(e) && Allowed(call) && WfPalette(t.palette) && W.PairsOk(e.display.core) && SplitsNothing(t, e, call)
    ensures W.PairsOk(Do(t, e, call).display.core)
  {
    var c := e.display.core;
    if call.FeedBytes? {
      var acts := P.Run(e.parser, call.bytes).acts;
      W.RunSound(t, c, acts);
      CoreRuns(t, e.display, acts);
    } else if call.Resize? {
      if call.cols > 0 && call.rows > 0 {
        W.ResizeSound(c, call.cols, call.rows);
      }
    } else if call.Reset? {
      W.NewSound(t, c.cols, c.rows);
    } else if call.SetPalette? {
      W.SameCells(c, c.(palette := call.palette));
    }
    hide W.PairsOk, P.Run, S.StepAll, S.StepAllCore, S.Resize, S.NewCore, W.NeverSplits, W.CutSplitsGrid, S.Wf;
  }

  lemma {:induction false} RunKeepsPairs(t: Tables, e: Engine, calls: seq<Call>)
    requires Wf(e) && AllAllowed(calls) && WfPalette(t.palette)
    requires W.PairsOk(e.display.core) && RunSplitsNothing(t, e, calls)
    ensures W.PairsOk(DoAll(t, e, calls).display.core)
    decreases calls
  {
    if calls != [] {
      DoKeepsPairs(t, e, calls[0]);
      hide Do, Wf, SplitsNothing, W.PairsOk;
      RunKeepsPairs(t, Do(t, e, calls[0]), calls[1..]);
    }
  }

  // ---------------------------------------------------------------- the one arithmetic edge

  /** HT goes to the next multiple of 8, clamped to the last column, exactly
      when that multiple fits 16 bits: from column 65528 on, the stop wraps to
      column 0. */
  lemma TabStop(c: S.Core)
    requires S.Wf(c)
    ensures var next := c.cursorCol - c.cursorCol % 8 + 8;
            S.ExecuteCore(c, 0x09).cursorCol == Min(next, c.cols - 1) <==> c.cursorCol < 65528
    ensures c.cursorCol >= 65528 ==> S.ExecuteCore(c, 0x09).cursorCol == 0
  {
    assert c.cursorCol == c.cursorCol / 8 * 8 + c.cursorCol % 8;
  }

  /** Such columns are reached: on a screen wide enough, CUP to column 65529 or
      beyond, then HT, and the cursor is back in the first column. */
  lemma TabWraps(t: Tables, cols: u16, rows: u16, col: u16)
    requires 65529 <= col <= cols && rows > 0 && WfPalette(t.palette)
    ensures S.StepAllCore(t, S.NewCore(t, cols, rows), [W.Move(1, col)] + [Execute(0x09)]).cursorCol == 0
  {
    var c := S.NewCore(t, cols, rows);
    var d := S.SetCursor(c, 0, col - 1);
    hide S.NewCore, S.StepAllCore, S.StepCore, S.Wf;
    W.MoveStep(t, c, 1, col);
    S.StepAllCoreAppend(t, c, [W.Move(1, col)], [Execute(0x09)]);
    S.StepOneCore(t, c, W.Move(1, col));
    S.StepOneCore(t, d, Execute(0x09));
    TabStop(d);
    TabIs(t, d);
  }

  lemma TabIs(t: Tables, c: S.Core)
    requires S.Wf(c)
    ensures S.StepCore(t, c, Execute(0x09)) == S.ExecuteCore(c, 0x09)
  {
  }
}
