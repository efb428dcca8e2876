/** Parser and screen together, as functions on a byte stream, and the claim
    they are for: a checkpoint plus the bytes after it is as good as never
    having disconnected. */
module EngineSpec {
  import opened VtTypes
  import P = ParserSpec
  import S = ScreenSpec
  import C = Checkpoint

  datatype Engine = Engine(parser: P.Parser, display: S.Display)

  ghost predicate Wf(e: Engine) {
    P.Settled(e.parser) && S.Wf(e.display.core)
  }

  function Feed(t: Tables, e: Engine, bytes: seq<u8>): (f: Engine)
    requires Wf(e)
    ensures Wf(f)
  {
    var o := P.Run(e.parser, bytes);
    Engine(o.p, S.StepAll(t, e.display, o.acts))
  }

  lemma FeedNothing(t: Tables, e: Engine)
    requires Wf(e)
    ensures Feed(t, e, []) == e
  {
    hide S.Wf, P.Wf;
  }

  /** Feeding two pieces is feeding their concatenation. */
  lemma FeedAppend(t: Tables, e: Engine, a: seq<u8>, b: seq<u8>)
    requires Wf(e)
    ensures Feed(t, Feed(t, e, a), b) == Feed(t, e, a + b)
  {
    P.RunAppend(e.parser, a, b);
    var first := P.Run(e.parser, a);
    S.StepAllAppend(t, e.display, first.acts, P.Run(first.p, b).acts);
  }

  // ---------------------------------------------------------------- what a state is remembered by

  /** In Ground only the pending UTF-8 matters: every way out of Ground clears
      the rest first. */
  ghost predicate SameParser(p: P.Parser, q: P.Parser) {
    || p == q
    || (p.state == P.Ground && q.state == P.Ground && p.utf8 == q.utf8 && p.needed == q.needed
        && p.putback == q.putback)
  }

  lemma StepSame(p: P.Parser, q: P.Parser, b: u8)
    requires P.Settled(p) && P.Settled(q) && SameParser(p, q)
    ensures P.Step(p, b).acts == P.Step(q, b).acts
    ensures SameParser(P.Step(p, b).p, P.Step(q, b).p)
  {
  }

  lemma ConsumeSame(p: P.Parser, q: P.Parser, b: u8)
    requires P.Settled(p) && P.Settled(q) && SameParser(p, q)
    ensures P.Consume(p, b).acts == P.Consume(q, b).acts
    ensures SameParser(P.Consume(p, b).p, P.Consume(q, b).p)
  {
    StepSame(p, q, b);
    hide P.Step;
    var x, y := P.Step(p, b), P.Step(q, b);
    if x.p.putback.Some? {
      StepSame(x.p.(putback := None), y.p.(putback := None), b);
    }
  }

  lemma {:induction false} RunSame(p: P.Parser, q: P.Parser, bytes: seq<u8>)
    requires P.Settled(p) && P.Settled(q) && SameParser(p, q)
    ensures P.Run(p, bytes).acts == P.Run(q, bytes).acts
    ensures SameParser(P.Run(p, bytes).p, P.Run(q, bytes).p)
    decreases bytes
  {
    if bytes != [] {
      ConsumeSame(p, q, bytes[0]);
      hide P.Consume;
      RunSame(P.Consume(p, bytes[0]).p, P.Consume(q, bytes[0]).p, bytes[1..]);
    }
  }

  /** An idle parser cannot be told from a new one. */
  lemma IdleIsNew(p: P.Parser, bytes: seq<u8>)
    requires P.Settled(p) && P.IsIdle(p)
    ensures P.Run(p, bytes).acts == P.Run(P.NEW, bytes).acts
    ensures P.IsIdle(P.Run(p, bytes).p) == P.IsIdle(P.Run(P.NEW, bytes).p)
  {
    RunSame(p, P.NEW, bytes);
  }

  /** The core after a run of actions is a function of the core before it:
      damage, replies and scrolled-off rows never feed back. */
  lemma {:induction false} CoreRuns(t: Tables, d: S.Display, acts: seq<Action>)
    requires S.Wf(d.core)
    ensures S.StepAll(t, d, acts).core == S.StepAllCore(t, d.core, acts)
    decreases acts
  {
    if acts != [] {
      CoreRuns(t, S.Step(t, d, acts[0]), acts[1..]);
    }
  }

  // ---------------------------------------------------------------- recovery

  /** What `VtEngine::import_checkpoint` leaves of an engine. */
  function Restored(e: Engine, c: S.Core): Engine {
    Engine(P.NEW, S.Display(c, S.ImportFx(e.display.fx)))
  }

  /** Two engines that will export the same blob after any further input that
      lets them export at all. */
  ghost predicate SameFuture(e: Engine, f: Engine) {
    SameParser(e.parser, f.parser) && e.display.core == f.display.core
  }

  lemma FeedSame(t: Tables, e: Engine, f: Engine, bytes: seq<u8>)
    requires Wf(e) && Wf(f) && SameFuture(e, f)
    ensures SameFuture(Feed(t, e, bytes), Feed(t, f, bytes))
  {
    RunSame(e.parser, f.parser, bytes);
    var acts := P.Run(e.parser, bytes).acts;
    CoreRuns(t, e.display, acts);
    CoreRuns(t, f.display, acts);
  }

  /** Resuming from an idle engine's checkpoint is continuing it. */
  lemma ResumeIsContinue(t: Tables, host: Engine, other: Engine, h2: seq<u8>)
    requires Wf(host) && P.IsIdle(host.parser)
    ensures Wf(Restored(other, host.display.core))
    ensures SameFuture(Feed(t, host, h2), Feed(t, Restored(other, host.display.core), h2))
  {
    FeedSame(t, host, Restored(other, host.display.core), h2);
  }

  /** Recovery equals continuous emulation. Take any engine, feed it `h1`, and
      let its parser be idle. Its checkpoint imports back to its core, and any
      other engine, after that import, is led by `h2` to the very core and
      readiness to export that feeding `h1 + h2` straight through leads to;
      so the next checkpoint is the same blob, byte for byte. */
  lemma Recovery(t: Tables, e: Engine, other: Engine, h1: seq<u8>, h2: seq<u8>, offset: u64, next: u64)
    requires Wf(e) && P.IsIdle(Feed(t, e, h1).parser)
    ensures C.Import(C.Export(Feed(t, e, h1).display.core, offset)) == C.Ok((offset, Feed(t, e, h1).display.core))
    ensures Wf(Restored(other, Feed(t, e, h1).display.core))
    ensures SameFuture(Feed(t, e, h1 + h2), Feed(t, Restored(other, Feed(t, e, h1).display.core), h2))
    ensures C.Export(Feed(t, Restored(other, Feed(t, e, h1).display.core), h2).display.core, next)
         == C.Export(Feed(t, e, h1 + h2).display.core, next)
  {
    var host := Feed(t, e, h1);
    FeedAppend(t, e, h1, h2);
    ResumeIsContinue(t, host, other, h2);
    C.ImportExport(host.display.core, offset);
  }

  /** Equal exports come from equal cores: the hash the reconciliation
      compares is taken over everything the emulator will ever act on. */
  lemma ExportDetermines(c: S.Core, d: S.Core, offset: u64)
    requires S.Wf(c) && S.Wf(d) && C.Export(c, offset) == C.Export(d, offset)
    ensures c == d
  {
    C.ImportExport(c, offset);
    C.ImportExport(d, offset);
  }
}
