/** The product's claim, end to end: session history, ring, checkpoint and
    emulator together. */
module RecoveryChain {
  import opened VtTypes
  import opened EngineSpec
  import E = EngineSpec
  import opened SessionSpec
  import X = SessionSpec
  import P = ParserSpec
  import S = ScreenSpec
  import C = Checkpoint
  import Ring

  /** A checkpoint some host took of its emulator after the first `k` bytes of
      the session. */
  ghost predicate TakenAt(t: Tables, s: Session, host: Engine, k: nat)
    requires Wf(host)
  {
    && k <= |s.stream| <= U64_MAX
    && P.IsIdle(Feed(t, host, s.stream[..k]).parser)
    && s.checkpoint.Some?
    && s.checkpoint.value.endingOffset == k
    && s.checkpoint.value.blob == C.Export(Feed(t, host, s.stream[..k]).display.core, k)
  }

  /** Recovery succeeds exactly while the ring still holds every byte after the
      checkpoint; and then a client that imports the blob and feeds the deltas
      stands where the emulator fed the whole session stands, and will export
      the same blob after any further input. */
  lemma CheckpointPlusDeltas(t: Tables, s: Session, host: Engine, other: Engine, k: nat, next: u64)
    requires Wf(host) && TakenAt(t, s, host, k)
    ensures X.Recovery(s).Done? <==> |s.stream| - k <= s.cap
    ensures X.Recovery(s).Done? ==>
              C.Import(X.Recovery(s).value.0.blob) == C.Ok((k, Feed(t, host, s.stream[..k]).display.core))
    ensures X.Recovery(s).Done? ==>
              var client := Restored(other, Feed(t, host, s.stream[..k]).display.core);
              Wf(client) && SameFuture(Feed(t, host, s.stream), Feed(t, client, X.Recovery(s).value.1))
              && C.Export(Feed(t, client, X.Recovery(s).value.1).display.core, next)
                 == C.Export(Feed(t, host, s.stream).display.core, next)
  {
    hide Feed, C.Export, C.Import, Restored, P.IsIdle, Wf;
    RecoveryIsSuffix(s, k);
    assert s.stream[..k] + s.stream[k..] == s.stream;
    E.Recovery(t, host, other, s.stream[..k], s.stream[k..], k, next);
  }

  lemma RecoveryIsSuffix(s: Session, k: nat)
    requires s.checkpoint.Some? && s.checkpoint.value.endingOffset == k <= |s.stream| <= U64_MAX
    ensures X.Recovery(s).Done? <==> |s.stream| - k <= s.cap
    ensures X.Recovery(s).Done? ==> X.Recovery(s).value == (s.checkpoint.value, s.stream[k..])
  {
    Ring.DeltasAreSuffix(s.stream, s.cap, k);
  }
}
