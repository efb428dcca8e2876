/** One turn of the worker told client by client, and what a client of
    protocol 2 makes of what it was sent. */
module FanoutLaws {
  import opened VtTypes
  import opened Attach
  import opened SessionSpec
  import opened FanoutSpec
  import Ring

  /** A writer of the leaf that the drain waits for: one that cannot skip. */
  predicate Paces(c: Client, id: u64) {
    c.leaf == Some(id) && !c.observe && c.protocol != 2
  }

  /** How much one turn may read: a buffer, and no more than any pacing writer
      can take. */
  ghost predicate Window(id: u64, clients: seq<Client>, n: nat) {
    && n <= 65536
    && (forall i :: 0 <= i < |clients| && Paces(clients[i], id) ==> n <= clients[i].credit)
    && (n == 65536 || exists i :: 0 <= i < |clients| && Paces(clients[i], id) && n == clients[i].credit)
  }

  /** A turn reads exactly when the child is alive, no pacing writer is out of
      credit, and the terminal answers with something; what it read is the
      whole answer. */
  lemma TurnReads(id: u64, w: Worker, env: Env, n: nat)
    requires Honest(env) && Window(id, w.clients, n)
    ensures GoesOn(id, w, env)
        <==> w.session.childExit.None? && n > 0 && env.read(n).Some? && env.read(n).value != []
    ensures GoesOn(id, w, env) ==> Turn(id, w, env).session.stream == w.session.stream + env.read(n).value
    ensures !GoesOn(id, w, env) ==> Turn(id, w, env).session.stream == w.session.stream
                                    && Turn(id, w, env).clients == w.clients
  {
    var cap := WriterCredit(w.clients, id);
    assert forall i :: 0 <= i < |w.clients| ==> IsWriter1(w.clients[i], id) == Paces(w.clients[i], id);
    assert n == if cap.Some? then Min(cap.value, READ_BUF) else READ_BUF;
    hide Honest, WriterCredit;
  }

  /** Everybody on the leaf whose credit covers what was read gets it, observers
      as well, and pays for it: under protocol 2 with its offset in the stream,
      otherwise as it is. Everybody else is left as they were. */
  lemma TurnServes(id: u64, w: Worker, env: Env, i: nat)
    requires Honest(env) && GoesOn(id, w, env) && i < |w.clients|
    requires w.session.bytesDelivered == Ring.End(w.session.stream)
    requires |w.session.stream| + READ_BUF <= U64_MAX
    ensures var before, t, c := w.session.stream, Turn(id, w, env), w.clients[i];
            && before <= t.session.stream && |t.clients| == |w.clients|
            && var got := t.session.stream[|before|..];
               if c.leaf == Some(id) && c.credit >= |got| then
                 var f := if c.protocol == 2 then Delta(|before|, got) else Data(got);
                 Encode(f).Ok? && t.clients[i] == c.(credit := c.credit - |got|, outbox := c.outbox + Encode(f).value)
               else t.clients[i] == c
  {
    ReadFitsWriters(id, w, env);
    var got := Read(id, w, env).1.value.value;
    assert (w.session.stream + got)[|w.session.stream|..] == got;
    ChunkFits(Data(got), got);
    ChunkFits(Delta(|w.session.stream|, got), got);
    hide Encode, Honest, Read, Payload, Sendable;
  }

  // ---------------------------------------------------------------- a client of protocol 2

  /** The first chunks of a list. */
  lemma {:induction false} ChunkBytesPrefix(a: seq<Chunk>, b: seq<Chunk>)
    ensures ChunkBytes(a) <= ChunkBytes(a + b)
    decreases |b|
  {
    if b == [] {
      assert a + b == a;
    } else {
      var n := |b| - 1;
      ChunkBytesPrefix(a, b[..n]);
      assert a + b == a + b[..n] + [b[n]];
      ChunkBytesPush(a + b[..n], b[n]);
    }
  }

  lemma {:induction false} LiveDeltasPrefix(sent: seq<Sent>, k: nat)
    requires k <= |sent|
    ensures LiveDeltas(sent[..k]) <= LiveDeltas(sent)
    decreases |sent|
  {
    if k == |sent| {
      assert sent[..k] == sent;
    } else {
      var init := sent[..|sent| - 1];
      LiveDeltasPrefix(init, k);
      assert init[..k] == sent[..k];
    }
  }

  /** The bytes of the Deltas among the frames, in order. */
  function DeltaBytes(fs: seq<Frame>): seq<u8> {
    if fs == [] then []
    else DeltaBytes(fs[..|fs| - 1]) + (if fs[|fs| - 1].Delta? then fs[|fs| - 1].delta else [])
  }

  /** None of the frames but the fan-out's own is a Delta. */
  ghost predicate OnlyLiveDeltas(sent: seq<Sent>) {
    forall i :: 0 <= i < |sent| ==> sent[i].live || !sent[i].frame.Delta?
  }

  lemma {:induction false} OnlyLiveBytes(sent: seq<Sent>)
    requires OnlyLiveDeltas(sent)
    ensures ChunkBytes(LiveDeltas(sent)) == DeltaBytes(FramesOf(sent))
    decreases |sent|
  {
    if sent != [] {
      var n, x := |sent| - 1, sent[|sent| - 1];
      OnlyLiveBytes(sent[..n]);
      assert FramesOf(sent)[..n] == FramesOf(sent[..n]);
      if x.live && x.frame.Delta? {
        ChunkBytesPush(LiveDeltas(sent[..n]), Chunk(x.frame.startOffset, x.frame.delta));
      } else {
        assert LiveDeltas(sent) == LiveDeltas(sent[..n]);
      }
    }
  }

  /** A client of protocol 2 whose credit covered every chunk so far reads the
      child's output as well: whatever its decoder has put together, the bytes
      of the Deltas in it are where the stream went on from its arrival, and
      all of it once its outbox is empty. */
  lemma DeltasReadStream(id: u64, stream: seq<u8>, c: Client, b: Book, chunks: seq<seq<u8>>) returns (k: nat)
    requires Fair(id, stream, c, b) && c.leaf == Some(id) && c.protocol == 2 && !b.missed && Concat(chunks) == b.written
    ensures k <= |b.sent| && PushAll([], chunks).error.None? && PushAll([], chunks).frames == FramesOf(b.sent[..k])
    ensures b.at <= |stream| && ChunkBytes(LiveDeltas(b.sent[..k])) <= stream[b.at..]
    ensures c.outbox == [] ==> ChunkBytes(LiveDeltas(b.sent[..k])) == stream[b.at..]
    ensures OnlyLiveDeltas(b.sent) ==> DeltaBytes(PushAll([], chunks).frames) == ChunkBytes(LiveDeltas(b.sent[..k]))
  {
    hide PushAll, LiveData, LiveDeltas, OnTheWire, LabelsOk, FramesOf, ChunkBytes, DeltaBytes;
    k := ClientReads(c, b, chunks);
    LiveDeltasPrefix(b.sent, k);
    var first := LiveDeltas(b.sent[..k]);
    ChunkBytesPrefix(first, LiveDeltas(b.sent)[|first|..]);
    assert first + LiveDeltas(b.sent)[|first|..] == LiveDeltas(b.sent);
    if k == |b.sent| {
      assert b.sent[..k] == b.sent;
    }
    if OnlyLiveDeltas(b.sent) {
      OnlyLiveBytes(b.sent[..k]);
    }
  }
}
