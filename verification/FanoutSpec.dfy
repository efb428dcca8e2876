/** The worker's drain of one leaf and its fan-out to the clients attached to
    it, as a state machine with a book kept for every client. */
module FanoutSpec {
  import opened VtTypes
  import opened Attach
  import opened SessionSpec
  import Ring

  const PROTOCOL_2: u8 := 2

  datatype Client = Client(leaf: Option<u64>, observe: bool, protocol: u8, credit: u64, outbox: seq<u8>)

  datatype Worker = Worker(session: Session, clients: seq<Client>)

  /** All of a chunk or none of it: short credit skips the client. */
  function LiveChunk(credit: u64, n: nat): Option<nat> {
    if n == 0 then Some(0) else if credit < n then None else Some(n)
  }

  predicate IsWriter1(c: Client, id: u64) {
    c.leaf == Some(id) && !c.observe && c.protocol != PROTOCOL_2
  }

  /** The least credit of the leaf's protocol-1 writers. */
  function WriterCredit(clients: seq<Client>, id: u64): (m: Option<u64>)
    ensures m.Some? <==> exists i :: 0 <= i < |clients| && IsWriter1(clients[i], id)
    ensures forall i :: 0 <= i < |clients| && IsWriter1(clients[i], id) ==> m.Some? && m.value <= clients[i].credit
    ensures m.Some? ==> exists i :: 0 <= i < |clients| && IsWriter1(clients[i], id) && clients[i].credit == m.value
  {
    if clients == [] then None
    else
      var n := |clients| - 1;
      var rest, c := WriterCredit(clients[..n], id), clients[n];
      if !IsWriter1(c, id) then rest
      else if rest.None? then Some(c.credit)
      else Some(Min(rest.value, c.credit))
  }

  /** The frame a client gets of a chunk that ends at stream offset `offset`. */
  function Shipped(id: u64, c: Client, offset: u64, bytes: seq<u8>): (f: Option<Frame>)
    ensures f.Some? ==> f.value.Data? || f.value.Delta?
  {
    if c.leaf != Some(id) || LiveChunk(c.credit, |bytes|).None? then None
    else if c.protocol == PROTOCOL_2 then Some(Delta(SatSub(offset, |bytes|), bytes))
    else Some(Data(bytes))
  }

  function Served(id: u64, c: Client, offset: u64, bytes: seq<u8>): Client
    requires |bytes| <= READ_BUF
  {
    match Shipped(id, c, offset, bytes)
    case None => c
    case Some(f) => c.(credit := c.credit - |bytes|, outbox := c.outbox + Encode(f).value)
  }

  function ServedAll(id: u64, clients: seq<Client>, offset: u64, bytes: seq<u8>): (r: seq<Client>)
    requires |bytes| <= READ_BUF
    ensures |r| == |clients|
  {
    seq(|clients|, i requires 0 <= i < |clients| => Served(id, clients[i], offset, bytes))
  }

  /** What one turn of the drain loop reads. */
  function Read(id: u64, w: Worker, env: Env): (Session, Outcome<Option<seq<u8>>>)
    requires Honest(env)
  {
    var cap := WriterCredit(w.clients, id);
    if cap == Some(0) then (Stall(w.session), Done(None))
    else DrainAtMost(w.session, cap, env)
  }

  /** One turn of the drain loop; the loop goes on while it reads something. */
  function Turn(id: u64, w: Worker, env: Env): Worker
    requires Honest(env)
  {
    var (s, r) := Read(id, w, env);
    if r.Done? && r.value.Some? then Worker(s, ServedAll(id, w.clients, s.bytesDelivered, r.value.value))
    else Worker(s, w.clients)
  }

  predicate GoesOn(id: u64, w: Worker, env: Env)
    requires Honest(env)
  {
    var r := Read(id, w, env).1;
    r.Done? && r.value.Some?
  }

  /** The first `n` turns. */
  function Turns(id: u64, w: Worker, envs: seq<Env>, n: nat): Worker
    requires n <= |envs| && forall k :: 0 <= k < |envs| ==> Honest(envs[k])
  {
    if n == 0 then w else Turn(id, Turns(id, w, envs, n - 1), envs[n - 1])
  }

  // ---------------------------------------------------------------- the books

  /** `Join` comes with what an attach is greeted by; `Deliver` is a frame of
      the session's own queue; `Write` is the socket taking some bytes. */
  datatype Event =
    | Join(client: Client, greeting: seq<Frame>)
    | Leave(i: nat)
    | Grant(i: nat, n: u32)
    | Deliver(i: nat, frame: Frame)
    | Write(i: nat, taken: nat)
    | DrainTurn(env: Env)

  /** A frame the daemon sends: no attach, and short enough to encode. */
  predicate Sendable(f: Frame) {
    !f.Attach? && |Payload(f)| <= MAX_FRAME
  }

  ghost predicate Possible(e: Event) {
    match e
    case Join(c, greeting) => c.credit == 0 && c.outbox == [] && forall k :: 0 <= k < |greeting| ==> Sendable(greeting[k])
    case Deliver(_, f) => Sendable(f)
    case DrainTurn(env) => Honest(env)
    case _ => true
  }

  function Without<T>(s: seq<T>, i: nat): seq<T> {
    if i < |s| then s[..i] + s[i + 1..] else s
  }

  function Step(id: u64, w: Worker, e: Event): Worker
    requires Possible(e)
  {
    match e
    case Join(c, greeting) => w.(clients := w.clients + [c.(outbox := Wire(greeting))])
    case Leave(i) => w.(clients := Without(w.clients, i))
    case Grant(i, n) =>
      if i < |w.clients|
      then w.(clients := w.clients[i := w.clients[i].(credit := SatAdd64(w.clients[i].credit, n))])
      else w
    case Deliver(i, f) =>
      if i < |w.clients|
      then w.(clients := w.clients[i := w.clients[i].(outbox := w.clients[i].outbox + Encode(f).value)])
      else w
    case Write(i, n) =>
      if i < |w.clients|
      then w.(clients := w.clients[i := Unsent(w.clients[i], n)])
      else w
    case DrainTurn(env) => Turn(id, w, env)
  }

  /** The socket took `n` bytes, or all there were. */
  function Unsent(c: Client, n: nat): Client {
    c.(outbox := c.outbox[Min(n, |c.outbox|)..])
  }

  datatype Chunk = Chunk(offset: nat, bytes: seq<u8>)

  /** A frame put into an outbox: by the fan-out, or not. */
  datatype Sent = Sent(frame: Frame, live: bool)

  /** What one client was granted, was sent, and could not be credited for
      lack of bits; every frame put into its outbox; the bytes its socket has
      taken; where in the stream it joined; whether its credit was ever short
      of a chunk that was read. */
  datatype Book = Book(granted: nat, spent: nat, lost: nat, sent: seq<Sent>, written: seq<u8>, at: nat, missed: bool)

  function FramesOf(sent: seq<Sent>): (fs: seq<Frame>)
    ensures |fs| == |sent|
  {
    seq(|sent|, i requires 0 <= i < |sent| => sent[i].frame)
  }

  /** The bytes of the DATA the fan-out sent, in order. */
  function LiveData(sent: seq<Sent>): seq<u8> {
    if sent == [] then []
    else
      var x := sent[|sent| - 1];
      LiveData(sent[..|sent| - 1]) + (if x.live && x.frame.Data? then x.frame.bytes else [])
  }

  /** The Deltas it sent. */
  function LiveDeltas(sent: seq<Sent>): seq<Chunk> {
    if sent == [] then []
    else
      var x := sent[|sent| - 1];
      LiveDeltas(sent[..|sent| - 1])
      + (if x.live && x.frame.Delta? then [Chunk(x.frame.startOffset, x.frame.delta)] else [])
  }

  /** The bytes of the chunks, in order. */
  function ChunkBytes(cs: seq<Chunk>): seq<u8> {
    if cs == [] then [] else ChunkBytes(cs[..|cs| - 1]) + cs[|cs| - 1].bytes
  }

  /** What the fan-out sent a client of the child's output: in DATA, or under
      protocol 2 in Deltas. */
  function Received(c: Client, b: Book): seq<u8> {
    if c.protocol == PROTOCOL_2 then ChunkBytes(LiveDeltas(b.sent)) else LiveData(b.sent)
  }

  /** The book after a turn that read `n` bytes and sent `f`. */
  function Turned(b: Book, c: Client, f: Option<Frame>, n: nat): Book {
    Entered(b, f).(missed := b.missed || c.credit < n)
  }

  function Entered(b: Book, f: Option<Frame>): Book {
    match f
    case None => b
    case Some(g) => b.(sent := b.sent + [Sent(g, true)], spent := b.spent + Carried(g))
  }

  function Carried(f: Frame): nat {
    if f.Data? then |f.bytes| else if f.Delta? then |f.delta| else 0
  }

  /** A grant on top of `credit`, of which what does not fit 64 bits is lost. */
  function Granted(b: Book, credit: u64, n: u32): Book {
    b.(granted := b.granted + n, lost := b.lost + SatSub(credit + n, U64_MAX))
  }

  /** The book of a client that joins. */
  function Opened(at: nat, greeting: seq<Frame>): Book {
    Book(0, 0, 0, seq(|greeting|, i requires 0 <= i < |greeting| => Sent(greeting[i], false)), [], at, false)
  }

  function Books(id: u64, w: Worker, bs: seq<Book>, e: Event): seq<Book>
    requires Possible(e) && |bs| == |w.clients|
  {
    match e
    case Join(_, greeting) => bs + [Opened(|w.session.stream|, greeting)]
    case Leave(i) => Without(bs, i)
    case Grant(i, n) =>
      if i < |bs| then bs[i := Granted(bs[i], w.clients[i].credit, n)] else bs
    case Deliver(i, f) =>
      if i < |bs| then bs[i := bs[i].(sent := bs[i].sent + [Sent(f, false)])] else bs
    case Write(i, n) =>
      if i < |bs| then bs[i := Taken(bs[i], w.clients[i], n)] else bs
    case DrainTurn(env) =>
      var (s, r) := Read(id, w, env);
      if r.Done? && r.value.Some? then
        seq(|bs|, i requires 0 <= i < |bs| =>
          Turned(bs[i], w.clients[i], Shipped(id, w.clients[i], s.bytesDelivered, r.value.value), |r.value.value|))
      else bs
  }

  function Taken(b: Book, c: Client, n: nat): Book {
    b.(written := b.written + c.outbox[..Min(n, |c.outbox|)])
  }

  /** A chunk carries exactly the stream's bytes at its offset. */
  predicate Labelled(stream: seq<u8>, c: Chunk) {
    c.offset + |c.bytes| <= |stream| && stream[c.offset..c.offset + |c.bytes|] == c.bytes
  }

  /** Ascending and apart, though credit may have left gaps. */
  ghost predicate Ascending(cs: seq<Chunk>) {
    forall i, j :: 0 <= i < j < |cs| ==> cs[i].offset + |cs[i].bytes| <= cs[j].offset
  }

  ghost predicate AllLabelled(stream: seq<u8>, cs: seq<Chunk>) {
    forall i :: 0 <= i < |cs| ==> Labelled(stream, cs[i])
  }

  ghost predicate LabelsOk(stream: seq<u8>, cs: seq<Chunk>) {
    |stream| <= U64_MAX ==> AllLabelled(stream, cs) && Ascending(cs)
  }

  /** The bytes a client's socket has taken and those still in its outbox are
      the frames put there, one after another. */
  ghost predicate OnTheWire(c: Client, b: Book) {
    && (forall i :: 0 <= i < |b.sent| ==> Sendable(b.sent[i].frame))
    && Encodable(FramesOf(b.sent)) && b.written + c.outbox == Wire(FramesOf(b.sent))
  }

  ghost predicate Fair(id: u64, stream: seq<u8>, c: Client, b: Book) {
    && OnTheWire(c, b)
    && c.credit + b.spent + b.lost == b.granted
    && (IsWriter1(c, id) ==> !b.missed)
    && (c.leaf == Some(id) && !b.missed ==> b.at <= |stream| && Received(c, b) == stream[b.at..])
    && LabelsOk(stream, LiveDeltas(b.sent))
  }

  ghost predicate AllFair(id: u64, w: Worker, bs: seq<Book>) {
    && |bs| == |w.clients|
    && w.session.bytesDelivered == Ring.End(w.session.stream)
    && forall i :: 0 <= i < |bs| ==> Fair(id, w.session.stream, w.clients[i], bs[i])
  }

  // ---------------------------------------------------------------- proofs

  /** A chunk never exceeds the credit of a protocol-1 writer. */
  lemma ReadFitsWriters(id: u64, w: Worker, env: Env)
    requires Honest(env) && GoesOn(id, w, env)
    ensures var (s, r) := Read(id, w, env);
            var got := r.value.value;
            got != [] && |got| <= READ_BUF && s == Took(w.session, got)
            && forall i :: 0 <= i < |w.clients| && IsWriter1(w.clients[i], id) ==> |got| <= w.clients[i].credit
  {
  }

  lemma LabelledGrows(stream: seq<u8>, got: seq<u8>, cs: seq<Chunk>)
    requires AllLabelled(stream, cs)
    ensures AllLabelled(stream + got, cs)
  {
    forall i | 0 <= i < |cs| ensures Labelled(stream + got, cs[i]) {
      var c := cs[i];
      assert Labelled(stream, c);
      assert (stream + got)[c.offset..c.offset + |c.bytes|] == stream[c.offset..c.offset + |c.bytes|];
    }
  }

  lemma NextChunk(stream: seq<u8>, got: seq<u8>, cs: seq<Chunk>)
    requires AllLabelled(stream, cs) && Ascending(cs)
    ensures AllLabelled(stream + got, cs + [Chunk(|stream|, got)]) && Ascending(cs + [Chunk(|stream|, got)])
  {
    LabelledGrows(stream, got, cs);
    assert (stream + got)[|stream|..|stream| + |got|] == got;
    forall i | 0 <= i < |cs| ensures cs[i].offset + |cs[i].bytes| <= |stream| {
      assert Labelled(stream, cs[i]);
    }
  }

  lemma FramesPush(sent: seq<Sent>, x: Sent)
    ensures FramesOf(sent + [x]) == FramesOf(sent) + [x.frame]
    ensures LiveData(sent + [x]) == LiveData(sent) + (if x.live && x.frame.Data? then x.frame.bytes else [])
    ensures LiveDeltas(sent + [x])
         == LiveDeltas(sent) + (if x.live && x.frame.Delta? then [Chunk(x.frame.startOffset, x.frame.delta)] else [])
  {
    assert (sent + [x])[..|sent|] == sent;
  }

  lemma ChunkBytesPush(cs: seq<Chunk>, c: Chunk)
    ensures ChunkBytes(cs + [c]) == ChunkBytes(cs) + c.bytes
  {
    assert (cs + [c])[..|cs|] == cs;
  }

  /** One more frame in the outbox. */
  lemma PutOnTheWire(c: Client, b: Book, c': Client, b': Book, x: Sent)
    requires OnTheWire(c, b) && Sendable(x.frame) && Encode(x.frame).Ok?
    requires c'.outbox == c.outbox + Encode(x.frame).value && b'.sent == b.sent + [x] && b'.written == b.written
    ensures OnTheWire(c', b')
  {
    FramesPush(b.sent, x);
    hide Encode, Payload, Wire, FramesOf, Sendable, Encodable;
    WirePut(FramesOf(b.sent), x.frame);
    assert b.written + (c.outbox + Encode(x.frame).value) == b.written + c.outbox + Encode(x.frame).value;
  }

  lemma WirePut(fs: seq<Frame>, f: Frame)
    requires Encodable(fs) && Sendable(f)
    ensures Encode(f).Ok? && Encodable(fs + [f]) && Wire(fs + [f]) == Wire(fs) + Encode(f).value
  {
    WirePush(fs, f);
    hide Wire, Payload;
  }

  /** The stream grew by what was drained, and a client may have got it. */
  lemma LabelsGrow(stream: seq<u8>, got: seq<u8>, cs: seq<Chunk>)
    requires LabelsOk(stream, cs)
    ensures LabelsOk(stream + got, cs)
    ensures LabelsOk(stream + got, cs + [Chunk(SatSub(Ring.End(stream + got), |got|), got)])
  {
    if |stream + got| <= U64_MAX {
      LabelledGrows(stream, got, cs);
      NextChunk(stream, got, cs);
    }
    hide AllLabelled, Ascending;
  }

  /** The book of a client after the fan-out put a frame into its outbox. */
  lemma LiveIsFair(id: u64, stream: seq<u8>, got: seq<u8>, c: Client, b: Book, f: Frame)
    requires Fair(id, stream, c, b) && Sendable(f) && Encode(f).Ok? && |got| <= c.credit
    requires f == if c.protocol == PROTOCOL_2 then Delta(SatSub(Ring.End(stream + got), |got|), got) else Data(got)
    ensures Fair(id, stream + got, c.(credit := c.credit - |got|, outbox := c.outbox + Encode(f).value),
                 Turned(b, c, Some(f), |got|))
  {
    hide OnTheWire, Encode, Payload, LabelsOk, LiveData, LiveDeltas, ChunkBytes, Ring.End, FramesOf, Sendable;
    FramesPush(b.sent, Sent(f, true));
    PutOnTheWire(c, b, c.(credit := c.credit - |got|, outbox := c.outbox + Encode(f).value),
                 Turned(b, c, Some(f), |got|), Sent(f, true));
    LabelsGrow(stream, got, LiveDeltas(b.sent));
    assert LiveDeltas(b.sent) + [] == LiveDeltas(b.sent);
    if f.Delta? {
      ChunkBytesPush(LiveDeltas(b.sent), Chunk(f.startOffset, f.delta));
    }
    if b.at <= |stream| {
      SuffixMore(stream, b.at, got);
    }
  }

  /** A client that was skipped. */
  lemma SkippedIsFair(id: u64, stream: seq<u8>, got: seq<u8>, c: Client, b: Book)
    requires Fair(id, stream, c, b) && !IsWriter1(c, id) && (c.leaf == Some(id) ==> c.credit < |got|)
    ensures Fair(id, stream + got, c, Turned(b, c, None, |got|))
  {
    hide OnTheWire, LabelsOk, LiveData, LiveDeltas;
    LabelsGrow(stream, got, LiveDeltas(b.sent));
    SameOnTheWire(c, b, Turned(b, c, None, |got|));
  }

  lemma SameOnTheWire(c: Client, b: Book, b': Book)
    requires OnTheWire(c, b) && b'.sent == b.sent && b'.written == b.written
    ensures OnTheWire(c, b')
  {
    hide FramesOf, Wire, Encodable, Sendable;
  }

  /** One client's book after a chunk of the stream was fanned out. */
  lemma ServedIsFair(id: u64, stream: seq<u8>, got: seq<u8>, c: Client, b: Book)
    requires Fair(id, stream, c, b) && 0 < |got| <= READ_BUF
    requires IsWriter1(c, id) ==> |got| <= c.credit
    ensures var end := Ring.End(stream + got);
            Fair(id, stream + got, Served(id, c, end, got), Turned(b, c, Shipped(id, c, end, got), |got|))
  {
    hide Fair, Encode, Payload, Ring.End;
    var f := Shipped(id, c, Ring.End(stream + got), got);
    if f.None? {
      SkippedIsFair(id, stream, got, c, b);
    } else {
      ChunkFits(f.value, got);
      hide Turned;
      LiveIsFair(id, stream, got, c, b, f.value);
    }
  }

  lemma ChunkFits(f: Frame, got: seq<u8>)
    requires |got| <= READ_BUF && (f == Data(got) || (f.Delta? && f.delta == got))
    ensures Sendable(f) && Encode(f).Ok?
  {
  }

  lemma TurnIsFair(id: u64, w: Worker, bs: seq<Book>, env: Env)
    requires Honest(env) && AllFair(id, w, bs)
    ensures AllFair(id, Turn(id, w, env), Books(id, w, bs, DrainTurn(env)))
  {
    hide Fair, Served, Turned, Shipped, Read, IsWriter1, WriterCredit, Ring.End;
    if GoesOn(id, w, env) {
      ReadFitsWriters(id, w, env);
      var got := Read(id, w, env).1.value.value;
      EndMore(w.session.stream, got);
      ServedAllFair(id, w, bs, got);
    } else {
      ReadNothing(id, w, env);
    }
  }

  lemma ReadNothing(id: u64, w: Worker, env: Env)
    requires Honest(env) && !GoesOn(id, w, env)
    ensures var s := Read(id, w, env).0;
            s.stream == w.session.stream && s.bytesDelivered == w.session.bytesDelivered
  {
  }

  /** Every client's book after one chunk. */
  lemma ServedAllFair(id: u64, w: Worker, bs: seq<Book>, got: seq<u8>)
    requires AllFair(id, w, bs) && 0 < |got| <= READ_BUF
    requires forall i :: 0 <= i < |w.clients| && IsWriter1(w.clients[i], id) ==> |got| <= w.clients[i].credit
    ensures var end := Ring.End(w.session.stream + got);
            forall i :: 0 <= i < |bs| ==>
              Fair(id, w.session.stream + got, Served(id, w.clients[i], end, got),
                   Turned(bs[i], w.clients[i], Shipped(id, w.clients[i], end, got), |got|))
  {
    hide Fair, Served, Turned, Shipped, IsWriter1, Ring.End;
    forall i | 0 <= i < |bs| {
      ServedIsFair(id, w.session.stream, got, w.clients[i], bs[i]);
    }
  }

  lemma GrantIsFair(id: u64, stream: seq<u8>, c: Client, b: Book, n: u32)
    requires Fair(id, stream, c, b)
    ensures Fair(id, stream, c.(credit := SatAdd64(c.credit, n)),
                 Granted(b, c.credit, n))
  {
    hide LabelsOk, FramesOf, Wire, Encodable;
  }

  lemma DeliveredIsFair(id: u64, stream: seq<u8>, c: Client, b: Book, f: Frame)
    requires Fair(id, stream, c, b) && Sendable(f)
    ensures Encode(f).Ok?
    ensures Fair(id, stream, c.(outbox := c.outbox + Encode(f).value), b.(sent := b.sent + [Sent(f, false)]))
  {
    FramesPush(b.sent, Sent(f, false));
    PutOnTheWire(c, b, c.(outbox := c.outbox + Encode(f).value), b.(sent := b.sent + [Sent(f, false)]), Sent(f, false));
    assert LiveData(b.sent) + [] == LiveData(b.sent) && LiveDeltas(b.sent) + [] == LiveDeltas(b.sent);
    hide OnTheWire, Payload, LabelsOk, LiveData, LiveDeltas;
  }

  lemma WrittenIsFair(id: u64, stream: seq<u8>, c: Client, b: Book, n: nat)
    requires Fair(id, stream, c, b)
    ensures Fair(id, stream, Unsent(c, n), Taken(b, c, n))
  {
    var k := Min(n, |c.outbox|);
    assert b.written + c.outbox[..k] + c.outbox[k..] == b.written + c.outbox;
    hide LabelsOk, LiveData, LiveDeltas, FramesOf, Wire, Encodable, Sendable;
  }

  lemma NewIsFair(id: u64, stream: seq<u8>, c: Client, greeting: seq<Frame>)
    requires Possible(Join(c, greeting))
    ensures Fair(id, stream, c.(outbox := Wire(greeting)), Opened(|stream|, greeting))
  {
    hide OnTheWire, LiveData, LiveDeltas, Wire;
    var b := Opened(|stream|, greeting);
    GreetingOnTheWire(c.(outbox := Wire(greeting)), b, greeting);
    NothingLive(b.sent);
  }

  lemma GreetingOnTheWire(c: Client, b: Book, greeting: seq<Frame>)
    requires |b.sent| == |greeting| && forall k :: 0 <= k < |greeting| ==> Sendable(greeting[k])
    requires forall k :: 0 <= k < |greeting| ==> b.sent[k].frame == greeting[k]
    requires Encodable(greeting) && b.written == [] && c.outbox == Wire(greeting)
    ensures OnTheWire(c, b)
  {
    assert FramesOf(b.sent) == greeting;
    hide Wire, Payload, FramesOf;
    assert [] + Wire(greeting) == Wire(greeting);
  }

  lemma {:induction false} NothingLive(sent: seq<Sent>)
    requires forall i :: 0 <= i < |sent| ==> !sent[i].live
    ensures LiveData(sent) == [] && LiveDeltas(sent) == []
    decreases |sent|
  {
    if sent != [] {
      NothingLive(sent[..|sent| - 1]);
    }
  }

  lemma StepIsFair(id: u64, w: Worker, bs: seq<Book>, e: Event)
    requires Possible(e) && AllFair(id, w, bs)
    ensures AllFair(id, Step(id, w, e), Books(id, w, bs, e))
  {
    hide Fair, Turn, Encode, Wire, Payload, Opened, Granted, Taken, Unsent;
    match e
    case Join(c, greeting) => NewIsFair(id, w.session.stream, c, greeting);
    case Leave(i) =>
    case Grant(i, n) =>
      if i < |bs| {
        GrantIsFair(id, w.session.stream, w.clients[i], bs[i], n);
      }
    case Deliver(i, f) =>
      if i < |bs| {
        DeliveredIsFair(id, w.session.stream, w.clients[i], bs[i], f);
      }
    case Write(i, n) =>
      if i < |bs| {
        WrittenIsFair(id, w.session.stream, w.clients[i], bs[i], n);
      }
    case DrainTurn(env) => TurnIsFair(id, w, bs, env);
  }

  ghost predicate AllPossible(es: seq<Event>) {
    forall i :: 0 <= i < |es| ==> Possible(es[i])
  }

  function Run(id: u64, w: Worker, es: seq<Event>): Worker
    requires AllPossible(es)
    decreases |es|
  {
    if es == [] then w else Run(id, Step(id, w, es[0]), es[1..])
  }

  ghost function RunBooks(id: u64, w: Worker, bs: seq<Book>, es: seq<Event>): seq<Book>
    requires AllPossible(es) && AllFair(id, w, bs)
    decreases |es|
  {
    if es == [] then bs
    else
      StepIsFair(id, w, bs, es[0]);
      RunBooks(id, Step(id, w, es[0]), Books(id, w, bs, es[0]), es[1..])
  }

  /** Over every run: each protocol-1 writer has been sent exactly what was
      drained since it joined; credit is never overdrawn and granted equals
      remaining plus sent; each client's Deltas are pieces of the stream at
      their offsets, ascending and apart. */
  lemma {:induction false} RunIsFair(id: u64, w: Worker, bs: seq<Book>, es: seq<Event>)
    requires AllPossible(es) && AllFair(id, w, bs)
    ensures AllFair(id, Run(id, w, es), RunBooks(id, w, bs, es))
    decreases |es|
  {
    assert |bs| == |w.clients|;
    hide AllFair, Step, Books;
    if es != [] {
      StepIsFair(id, w, bs, es[0]);
      RunIsFair(id, Step(id, w, es[0]), Books(id, w, bs, es[0]), es[1..]);
    }
  }

  /** A worker as it starts: a spawned session, nobody attached. */
  function NewWorker(cap: nat, size: Winsize, ephemeral: bool): Worker {
    Worker(Spawned(cap, size, ephemeral), [])
  }

  /** So every run of a worker, from its start, is fair throughout. */
  lemma EveryRunIsFair(id: u64, cap: nat, size: Winsize, ephemeral: bool, es: seq<Event>)
    requires AllPossible(es)
    ensures AllFair(id, NewWorker(cap, size, ephemeral), [])
    ensures AllFair(id, Run(id, NewWorker(cap, size, ephemeral), es), RunBooks(id, NewWorker(cap, size, ephemeral), [], es))
  {
    hide Run, RunBooks, AllPossible;
    assert AllFair(id, NewWorker(cap, size, ephemeral), []);
    RunIsFair(id, NewWorker(cap, size, ephemeral), [], es);
  }

  // ---------------------------------------------------------------- what a client reads

  /** The first frames of those sent. */
  lemma {:induction false} LiveDataPrefix(sent: seq<Sent>, k: nat)
    requires k <= |sent|
    ensures LiveData(sent[..k]) <= LiveData(sent)
    decreases |sent|
  {
    if k == |sent| {
      assert sent[..k] == sent;
    } else {
      var init := sent[..|sent| - 1];
      LiveDataPrefix(init, k);
      assert init[..k] == sent[..k];
    }
  }

  /** None of the frames but the fan-out's own carries DATA. */
  ghost predicate OnlyLive(sent: seq<Sent>) {
    forall i :: 0 <= i < |sent| ==> sent[i].live || !sent[i].frame.Data?
  }

  lemma {:induction false} OnlyLiveData(sent: seq<Sent>)
    requires OnlyLive(sent)
    ensures LiveData(sent) == DataOf(FramesOf(sent))
    decreases |sent|
  {
    if sent != [] {
      var init := sent[..|sent| - 1];
      OnlyLiveData(init);
      assert FramesOf(sent)[..|sent| - 1] == FramesOf(init);
    }
  }

  /** What a client has put together of the bytes its socket took, however they
      were cut: the first `k` of the frames it was sent, all of them once its
      outbox is empty. */
  lemma ClientReads(c: Client, b: Book, chunks: seq<seq<u8>>) returns (k: nat)
    requires OnTheWire(c, b) && Concat(chunks) == b.written
    ensures k <= |b.sent| && PushAll([], chunks).error.None? && PushAll([], chunks).frames == FramesOf(b.sent[..k])
    ensures c.outbox == [] ==> k == |b.sent|
  {
    var fs := FramesOf(b.sent);
    PartRead(fs, b.written, c.outbox, chunks);
    NoneAmbiguous(b.sent);
    k := |PushAll([], chunks).frames|;
    assert FramesOf(b.sent[..k]) == fs[..k];
    hide PushAll, Wire, Encodable;
  }

  lemma NoneAmbiguous(sent: seq<Sent>)
    requires forall i :: 0 <= i < |sent| ==> Sendable(sent[i].frame)
    ensures AllArriving(FramesOf(sent)) == FramesOf(sent)
  {
    var fs := FramesOf(sent);
    forall i | 0 <= i < |fs| ensures !Ambiguous(fs[i]) {
      assert Sendable(sent[i].frame);
    }
    ArrivingSame(fs);
  }

  /** A protocol-1 writer reads the child's output: whatever its decoder has
      put together, the DATA in it that the fan-out sent is where the stream
      went on from the writer's arrival, and all of it once its outbox is
      empty. While nothing else sends DATA, that is all the DATA there is. */
  lemma WriterReadsStream(id: u64, stream: seq<u8>, c: Client, b: Book, chunks: seq<seq<u8>>) returns (k: nat)
    requires Fair(id, stream, c, b) && IsWriter1(c, id) && Concat(chunks) == b.written
    ensures k <= |b.sent| && PushAll([], chunks).error.None? && PushAll([], chunks).frames == FramesOf(b.sent[..k])
    ensures b.at <= |stream| && LiveData(b.sent[..k]) <= stream[b.at..]
    ensures c.outbox == [] ==> LiveData(b.sent[..k]) == stream[b.at..]
    ensures OnlyLive(b.sent) ==> DataOf(PushAll([], chunks).frames) == LiveData(b.sent[..k])
  {
    hide PushAll, LiveData, LiveDeltas, OnTheWire, LabelsOk, FramesOf, DataOf;
    k := ClientReads(c, b, chunks);
    LiveDataPrefix(b.sent, k);
    if k == |b.sent| {
      assert b.sent[..k] == b.sent;
    }
    if OnlyLive(b.sent) {
      OnlyLiveData(b.sent[..k]);
    }
  }
}
