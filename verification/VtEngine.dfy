/** The emulator: bytes in, snapshots and checkpoints out. */
module VtEngineModule {
  import opened VtTypes
  import opened TermScreen
  import opened ByteParser
  import S = ScreenSpec
  import P = ParserSpec
  import C = Checkpoint
  import E = EngineSpec
  import H = HostRuns
  import R = Repaint
  import RS = Resync

  class VtEngine {
    const t: Tables
    var parser: Parser
    var screen: Screen

    ghost predicate Valid()
      reads this, parser, parser.params, parser.intermediates, parser.osc, parser.utf8, screen, screen.cells
    {
      && parser.Valid() && parser.putback.None?
      && screen.Valid() && screen.t == t
    }

    ghost function State(): (e: E.Engine)
      requires Valid()
      reads this, parser, parser.params, parser.intermediates, parser.osc, parser.utf8, screen, screen.cells
      ensures E.Wf(e)
    {
      E.Engine(parser.Abs(), screen.Shown())
    }

    constructor (t: Tables, cols: u16, rows: u16)
      requires cols > 0 && rows > 0 && WfPalette(t.palette)
      ensures Valid() && this.t == t
      ensures State() == H.New(t, cols, rows)
    {
      this.t := t;
      parser := new Parser();
      screen := new Screen(t, cols, rows);
    }

    /** A zero dimension is refused. */
    static method Create(t: Tables, cols: u16, rows: u16) returns (made: Option<VtEngine>)
      requires WfPalette(t.palette)
      ensures made.Some? <==> cols > 0 && rows > 0
      ensures made.Some? ==> fresh(made.value) && made.value.t == t && made.value.Valid()
      ensures made.Some? ==> made.value.State() == H.New(t, cols, rows)
    {
      if cols == 0 || rows == 0 {
        return None;
      }
      var e := new VtEngine(t, cols, rows);
      return Some(e);
    }

    method Feed(bytes: seq<u8>)
      requires Valid()
      modifies parser, parser.params, parser.intermediates, parser.osc, parser.utf8, screen, screen.cells
      ensures Valid() && State() == H.Do(t, old(State()), H.FeedBytes(bytes))
    {
      hide P.Run, S.StepAll, Screen.Valid, Parser.Valid;
      parser.Feed(bytes, screen);
    }

    method NewParser()
      modifies this`parser
      ensures fresh(parser) && parser.Valid() && parser.Abs() == P.NEW
      ensures fresh(parser.params) && fresh(parser.intermediates) && fresh(parser.osc) && fresh(parser.utf8)
    {
      hide Parser.Valid;
      parser := new Parser();
    }

    method NewScreen(cols: u16, rows: u16)
      requires cols > 0 && rows > 0 && WfPalette(t.palette)
      modifies this`screen
      ensures fresh(screen) && screen.Valid() && screen.t == t && fresh(screen.cells)
      ensures screen.Shown() == S.Display(S.NewCore(t, cols, rows), S.NEW_FX)
    {
      hide Screen.Valid, S.Wf, S.NewCore;
      screen := new Screen(t, cols, rows);
    }

    /** A new parser and a new screen of the same size. */
    method Reset()
      requires Valid()
      modifies this
      ensures Valid() && Fresh()
      ensures State() == H.Do(t, old(State()), H.Reset)
    {
      assert screen.cols > 0 && screen.rows > 0 && WfPalette(t.palette);
      hide Screen.Valid, Screen.Shown, Parser.Valid, Parser.Abs, S.Wf, S.NewCore, P.Wf;
      NewParser();
      NewScreen(screen.cols, screen.rows);
    }

    /** The visible grid as bytes that draw it. */
    method RepaintBytes() returns (out: seq<u8>)
      requires Valid()
      ensures out == R.RepaintBytes(State().display.core)
    {
      hide Screen.Valid, Parser.Valid, R.RepaintBytes;
      out := screen.RepaintBytes();
    }

    /** Everything behind the engine was allocated by the method it follows. */
    twostate predicate Fresh()
      reads this, parser, screen
    {
      fresh(screen) && fresh(screen.cells)
      && fresh(parser) && fresh(parser.params) && fresh(parser.intermediates) && fresh(parser.osc) && fresh(parser.utf8)
    }

    method StartQuietly()
      requires Valid()
      modifies this
      ensures Valid() && Fresh()
      ensures State() == RS.Quietly(t, old(State()).display.core.cols, old(State()).display.core.rows)
    {
      hide Screen.Valid, Parser.Valid, Parser.Abs, S.NewCore, S.Wf, P.Wf;
      Reset();
      screen.SetDiscardReplies(true);
    }

    method DiscardReplies(on: bool)
      requires Valid()
      modifies screen
      ensures Valid() && State() == H.Do(t, old(State()), H.DiscardReplies(on))
    {
      hide Screen.Valid, Parser.Valid;
      screen.SetDiscardReplies(on);
    }

    /** Replay a history from nothing, with replies off. */
    method Replay(history: seq<u8>)
      requires Valid()
      modifies this
      ensures Valid()
      ensures State() == RS.Loud(RS.Replayed(t, old(State()).display.core.cols, old(State()).display.core.rows, history))
    {
      hide Valid, E.Feed, S.NewCore, RS.Quietly, S.Wf, E.Wf, P.Wf;
      StartQuietly();
      E.FeedNothing(t, State());
      if history != [] {
        Feed(history);
      }
      DiscardReplies(false);
    }

    /** Cold resync: the screen a history leads to, as bytes that clear and
        draw it. */
    method ResyncFromHistory(history: seq<u8>) returns (out: seq<u8>)
      requires Valid()
      modifies this
      ensures Valid()
      ensures State() == RS.Loud(RS.Replayed(t, old(State()).display.core.cols, old(State()).display.core.rows, history))
      ensures out == RS.ResyncBytes(t, old(State()).display.core.cols, old(State()).display.core.rows, history)
    {
      hide Screen.Valid, Parser.Valid, R.RepaintBytes, RS.ClearBytes, RS.Replayed;
      Replay(history);
      var clear := RS.EmitClear();
      var paint := screen.RepaintBytes();
      out := clear + paint;
    }

    /** Refused while a sequence or a character is incomplete. */
    method ExportCheckpoint(offset: u64) returns (r: Option<seq<u8>>)
      requires Valid()
      ensures r.Some? <==> P.IsIdle(State().parser)
      ensures r.Some? ==> r.value == C.Export(State().display.core, offset)
    {
      if !parser.IsIdle() {
        return None;
      }
      var blob := screen.ExportCheckpoint(offset);
      return Some(blob);
    }

    /** An accepted blob replaces the state; a rejected one changes nothing. */
    method ImportCheckpoint(bytes: seq<u8>) returns (r: C.Result<u64>)
      requires Valid()
      modifies this, screen
      ensures match C.Import(bytes)
              case Err(e) => r == C.Err(e) && Valid() && State() == old(State())
              case Ok((offset, c)) =>
                && r == C.Ok(offset)
                && parser.Valid() && parser.Abs() == P.NEW
                && screen.Core() == c && screen.Fx() == S.ImportFx(old(State()).display.fx)
                && (S.Wf(c) ==> Valid() && State() == E.Restored(old(State()), c))
    {
      hide Screen.Valid, Parser.Valid, C.Import, C.Export;
      r := screen.ImportCheckpoint(bytes);
      if r.Ok? {
        parser := new Parser();
      }
    }

    method Resize(cols: u16, rows: u16) returns (ok: bool)
      requires Valid()
      modifies screen
      ensures Valid() && ok == (cols > 0 && rows > 0)
      ensures State() == H.Do(t, old(State()), H.Resize(cols, rows))
    {
      hide Screen.Valid, Parser.Valid, S.Resize;
      ok := screen.Resize(cols, rows);
    }

    method SetPalette(p: Palette)
      requires Valid() && WfPalette(p)
      modifies screen
      ensures Valid() && State() == H.Do(t, old(State()), H.SetPalette(p))
    {
      hide Screen.Valid, Parser.Valid;
      screen.SetPalette(p);
    }

    method TakeReplies() returns (taken: seq<u8>)
      requires Valid()
      modifies screen
      ensures Valid() && State() == H.Do(t, old(State()), H.TakeReplies)
      ensures taken == old(State()).display.fx.replies
    {
      hide Screen.Valid, Parser.Valid;
      taken := screen.TakeReplies();
    }

    method TakeScrolledOff() returns (taken: seq<seq<PodCell>>)
      requires Valid()
      modifies screen
      ensures Valid() && State() == H.Do(t, old(State()), H.TakeScrolledOff)
      ensures |taken| == |old(State()).display.fx.scrolledOff|
      ensures forall i :: 0 <= i < |taken| ==>
                taken[i] == PodRow(t, old(State()).display.core.palette, old(State()).display.fx.scrolledOff[i])
    {
      hide Screen.Valid, Parser.Valid;
      taken := screen.TakeScrolledOff();
    }

    method Snapshot() returns (pod: PodGrid)
      requires Valid()
      modifies screen
      ensures Valid()
      ensures State() == H.Do(t, old(State()), H.Snapshot)
      ensures pod == S.PodOf(t, old(State()).display.core, old(State()).display.fx)
    {
      hide Screen.Valid, Parser.Valid, S.PodOf;
      pod := screen.Snapshot();
    }
  }
}
