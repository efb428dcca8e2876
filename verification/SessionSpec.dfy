/** One session as a state machine: what it does at each event, and the
    ledgers that stay balanced over every interleaving of events. */
module SessionSpec {
  import opened VtTypes
  import opened Attach
  import Ring

  const READ_BUF := 64 * 1024
  const CHECKPOINT_FORMAT_VERSION: u16 := 1

  datatype Winsize = Winsize(cols: u16, rows: u16, pxW: u16, pxH: u16)

  datatype InputDelivery = Pending | Dispatched | Unknown

  datatype StoredCheckpoint = StoredCheckpoint(version: u16, endingOffset: u64, hash: u64, blob: seq<u8>)

  /** `nonce` 0 while nobody may type; `running` while the grace period can end. */
  datatype Lease = Lease(generation: u64, nonce: u64, running: bool)

  /** `stream` is every byte read from the child; a ring keeps its end. `sent`
      is every buffer the child has accepted; `killed` says its end was asked for. */
  datatype Session = Session(
    stream: seq<u8>,
    cap: nat,
    sent: seq<seq<u8>>,
    generation: Option<u64>,
    credit: u64,
    outbound: seq<Frame>,
    pendingInput: seq<seq<u8>>,
    childExit: Option<i32>,
    exitDelivered: bool,
    resyncPending: bool,
    resyncCount: u32,
    stalledReads: u64,
    bytesDelivered: u64,
    size: Winsize,
    delivery: InputDelivery,
    observers: u32,
    checkpoint: Option<StoredCheckpoint>,
    lease: Lease,
    ephemeral: bool,
    killed: bool)

  datatype SessionError = Dead | Io | NoCheckpoint | CheckpointEvicted | IncompatibleCheckpoint

  datatype Outcome<+T> = Done(value: T) | Fails(error: SessionError)

  /** The child's terminal: what a read into a buffer of a given size returns
      (nothing on an error), whether a write is accepted, whether a resize is;
      and whether the input lease has run out. */
  datatype Env = Env(read: nat -> Option<seq<u8>>, accepts: seq<u8> -> bool, resizes: bool, leaseDue: bool)

  /** A read never returns more than the buffer holds. */
  ghost predicate Honest(env: Env) {
    forall n: nat :: env.read(n).Some? ==> |env.read(n).value| <= n
  }

  function Spawned(cap: nat, size: Winsize, ephemeral: bool): Session {
    Session([], Max(cap, 1), [], None, 0, [], [], None, false, false, 0, 0, 0, size, Unknown, 0, None, Lease(0, 0, false),
            ephemeral, false)
  }

  predicate HasListeners(s: Session) {
    s.generation.Some? || s.observers > 0
  }

  function Queue(s: Session, f: Frame): Session {
    s.(outbound := s.outbound + [f])
  }

  function QueueExit(s: Session, status: i32): Session {
    Queue(s, Exit(status)).(exitDelivered := true)
  }

  // ---------------------------------------------------------------- input

  function TakeLease(l: Lease, nonce: u64): Lease {
    Lease(SatAdd64(l.generation, 1), nonce, true)
  }

  function ExpireLease(l: Lease, due: bool): Lease {
    if l.running && due then l.(nonce := 0, running := false) else l
  }

  predicate BlocksInput(l: Lease) {
    l.generation > 0 && l.nonce == 0
  }

  /** Write what is pending, oldest first; a buffer that is refused is lost
      and ends the flush. */
  function Flush(s: Session, env: Env): Session
    decreases |s.pendingInput|
  {
    if s.pendingInput == [] then s
    else
      var buf, rest := s.pendingInput[0], s.pendingInput[1..];
      if !env.accepts(buf) then s.(pendingInput := rest)
      else Flush(s.(pendingInput := rest, sent := s.sent + [buf], delivery := Dispatched), env)
  }

  predicate Flushes(s: Session, env: Env) {
    forall i :: 0 <= i < |s.pendingInput| ==> env.accepts(s.pendingInput[i])
  }

  lemma NoneToFlush(s: Session, env: Env)
    ensures s.pendingInput == [] ==> Flush(s, env) == s && Flushes(s, env)
  {
  }

  /** The oldest buffer is written, or lost and the flush ended. */
  lemma FirstToFlush(s: Session, env: Env)
    requires s.pendingInput != []
    ensures var buf, rest := s.pendingInput[0], s.(pendingInput := s.pendingInput[1..]);
            if env.accepts(buf) then
              Flush(s, env) == Flush(rest.(sent := s.sent + [buf], delivery := Dispatched), env)
              && Flushes(s, env) == Flushes(rest.(sent := s.sent + [buf], delivery := Dispatched), env)
            else Flush(s, env) == rest && !Flushes(s, env)
  {
    assert s.pendingInput == [s.pendingInput[0]] + s.pendingInput[1..];
  }

  function OnData(s: Session, bytes: seq<u8>, env: Env): (Session, Outcome<()>) {
    if s.childExit.Some? then (s, Fails(Dead))
    else
      var l := s.(lease := ExpireLease(s.lease, env.leaseDue));
      if BlocksInput(l.lease) then (l, Done(()))
      else
        var p := l.(delivery := Pending, pendingInput := s.pendingInput + [bytes]);
        (Flush(p, env), if Flushes(p, env) then Done(()) else Fails(Io))
  }

  /** Input queued before a resize reaches the child before the new size does. */
  function OnResize(s: Session, size: Winsize, env: Env): (Session, Outcome<()>) {
    var l := s.(lease := ExpireLease(s.lease, env.leaseDue));
    if BlocksInput(l.lease) then (l, Done(()))
    else if !Flushes(l, env) then (Flush(l, env), Fails(Io))
    else (Flush(l, env).(size := size), if env.resizes then Done(()) else Fails(Io))
  }

  /** One writer at a time; a writer that attaches to a dead child is told. */
  function OnAttach(s: Session, generation: u64, observe: bool): Session {
    if observe then s.(observers := SatAdd32(s.observers, 1))
    else if s.generation.Some? then Queue(s, Refused(AlreadyAttached))
    else
      var a := s.(generation := Some(generation), resyncPending := true, lease := TakeLease(s.lease, generation));
      if s.childExit.Some? then QueueExit(a, s.childExit.value) else a
  }

  function OnFrame(s: Session, f: Frame, env: Env): (Session, Outcome<()>) {
    match f
    case Attach(generation, _, _, observe) => (OnAttach(s, generation, observe), Done(()))
    case Credit(n) => (s.(credit := SatAdd64(s.credit, n)), Done(()))
    case Resize(c, r, w, h) => OnResize(s, Winsize(c, r, w, h), env)
    case Data(bytes) => OnData(s, bytes, env)
    case _ => (s, Done(()))
  }

  // ---------------------------------------------------------------- output

  function Stall(s: Session): Session {
    s.(stalledReads := SatAdd64(s.stalledReads, 1))
  }

  /** Bytes read from the child go into the history. */
  function Took(s: Session, bytes: seq<u8>): Session
    requires |bytes| <= READ_BUF
  {
    s.(stream := s.stream + bytes, bytesDelivered := SatAdd64(s.bytesDelivered, |bytes|))
  }

  /** Read only while there is credit, and ship what was read. */
  function OnReadable(s: Session, env: Env): (Session, Outcome<nat>)
    requires Honest(env)
  {
    if s.credit == 0 then (Stall(s), Done(0))
    else
      var n := Min(s.credit, READ_BUF);
      match env.read(n)
      case None => (s, Fails(Io))
      case Some(got) =>
        if got == [] then (s, Done(0))
        else
          var t := Took(s, got).(credit := s.credit - |got|);
          (if HasListeners(s) then Queue(t, Data(got)) else t, Done(|got|))
  }

  /** The worker's read: not gated by this session's credit, shipped by the
      caller. */
  function DrainAtMost(s: Session, max: Option<nat>, env: Env): (Session, Outcome<Option<seq<u8>>>)
    requires Honest(env)
  {
    var n := if max.Some? then Min(max.value, READ_BUF) else READ_BUF;
    if s.childExit.Some? then (s, Done(None))
    else if n == 0 then (Stall(s), Done(None))
    else
      match env.read(n)
      case None => (s, Fails(Io))
      case Some(got) => if got == [] then (s, Done(None)) else (Took(s, got), Done(Some(got)))
  }

  lemma DrainFits(s: Session, max: Option<nat>, env: Env)
    requires Honest(env)
    ensures var r := DrainAtMost(s, max, env).1;
            r.Done? && r.value.Some? ==> 0 < |r.value.value| <= READ_BUF && (max.Some? ==> |r.value.value| <= max.value)
  {
  }

  function TakeResync(s: Session): (Session, Option<seq<u8>>) {
    if !s.resyncPending then (s, None)
    else (s.(resyncPending := false, resyncCount := SatAdd32(s.resyncCount, 1)), Some(Ring.Kept(s.stream, s.cap)))
  }

  // ---------------------------------------------------------------- lifecycle

  /** `waited` is what waiting for the child returned: its status once it has
      exited. */
  function PollChild(s: Session, waited: Outcome<Option<i32>>): (Session, Outcome<bool>) {
    if s.childExit.Some? then (s, Done(false))
    else
      match waited
      case Fails(e) => (s, Fails(e))
      case Done(None) => (s, Done(false))
      case Done(Some(status)) =>
        var d := s.(childExit := Some(status));
        (if HasListeners(s) then QueueExit(d, status) else d, Done(true))
  }

  function Control(fs: seq<Frame>): (r: seq<Frame>)
    ensures forall f :: f in r <==> f in fs && !f.Data?
  {
    if fs == [] then []
    else (if fs[0].Data? then [] else [fs[0]]) + Control(fs[1..])
  }

  /** Pending DATA goes, everything else stays; an ephemeral child does not
      outlive its writer. */
  function Detach(s: Session): Session {
    s.(generation := None, credit := 0, killed := s.killed || s.ephemeral, outbound := Control(s.outbound),
       pendingInput := [], delivery := if s.pendingInput != [] then Unknown else s.delivery)
  }

  function InstallCheckpoint(s: Session, rec: StoredCheckpoint): (Session, Outcome<()>) {
    if rec.version != CHECKPOINT_FORMAT_VERSION then (s, Fails(IncompatibleCheckpoint))
    else (s.(checkpoint := Some(rec)), Done(()))
  }

  function Recovery(s: Session): Outcome<(StoredCheckpoint, seq<u8>)> {
    match s.checkpoint
    case None => Fails(NoCheckpoint)
    case Some(rec) =>
      match Ring.Deltas(s.stream, s.cap, rec.endingOffset)
      case None => Fails(CheckpointEvicted)
      case Some(deltas) => Done((rec, deltas))
  }

  // ---------------------------------------------------------------- runs

  datatype Event =
    | Inbound(frame: Frame, env: Env)
    | Readable(env: Env)
    | Drain(max: Option<nat>, env: Env)
    | Poll(waited: Outcome<Option<i32>>)
    | DetachWriter
    | ReleaseObserver
    | Enqueue(frame: Frame)
    | Pop
    | Resync
    | NoteStall
    | Install(rec: StoredCheckpoint)

  ghost predicate Possible(e: Event) {
    match e
    case Inbound(_, env) => Honest(env)
    case Readable(env) => Honest(env)
    case Drain(_, env) => Honest(env)
    case _ => true
  }

  function Step(s: Session, e: Event): Session
    requires Possible(e)
  {
    match e
    case Inbound(f, env) => OnFrame(s, f, env).0
    case Readable(env) => OnReadable(s, env).0
    case Drain(max, env) => DrainAtMost(s, max, env).0
    case Poll(waited) => PollChild(s, waited).0
    case DetachWriter => Detach(s)
    case ReleaseObserver => s.(observers := SatSub(s.observers, 1))
    case Enqueue(f) => Queue(s, f)
    case Pop => s.(outbound := if s.outbound == [] then [] else s.outbound[1..])
    case Resync => TakeResync(s).0
    case NoteStall => Stall(s)
    case Install(rec) => InstallCheckpoint(s, rec).0
  }

  /** The books kept beside a session. `granted`, `read` and `lost` are the
      credit granted, the bytes read against it and the credit that did not
      fit 64 bits, since the last detach; `queued` every frame queued since
      the writer attached, at stream offset `at`; `mixed` once the host has
      queued DATA itself or drained the child without queuing it. `typed` is
      every DATA the child was to get, `size` the last size asked for, `left`
      whether a writer ever detached; `all` every frame ever queued and `taken`
      those that came out of the queue. */
  datatype Ledger = Ledger(
    granted: nat,
    read: nat,
    lost: nat,
    queued: seq<Frame>,
    at: nat,
    mixed: bool,
    typed: seq<seq<u8>>,
    size: Winsize,
    left: bool,
    all: seq<Frame>,
    taken: seq<Frame>)

  function Opened(size: Winsize): Ledger {
    Ledger(0, 0, 0, [], 0, false, [], size, false, [], [])
  }

  /** Whether the lease lets the writer type: nobody took one yet, or the
      taker's has not run out. */
  predicate MayType(s: Session, env: Env) {
    s.lease.generation == 0 || (s.lease.nonce != 0 && !(s.lease.running && env.leaseDue))
  }

  /** The frames an event adds to the queue. */
  function Added(s: Session, e: Event): seq<Frame>
    requires Possible(e)
  {
    var t := Step(s, e);
    if !e.DetachWriter? && !e.Pop? && |s.outbound| <= |t.outbound| then t.outbound[|s.outbound|..] else []
  }

  predicate Attaches(s: Session, e: Event) {
    e.Inbound? && e.frame.Attach? && !e.frame.observe && s.generation.None?
  }

  function Account(s: Session, l: Ledger, e: Event): Ledger
    requires Possible(e)
  {
    var t := Step(s, e);
    var b := l.(queued := l.queued + Added(s, e), all := l.all + Added(s, e));
    match e
    case DetachWriter => b.(granted := 0, read := 0, lost := 0, left := true)
    case Pop => b.(taken := if s.outbound == [] then l.taken else l.taken + [s.outbound[0]])
    case Inbound(f, env) =>
      if f.Data? then
        (if s.childExit.None? && MayType(s, env) && env.accepts(f.bytes) then b.(typed := l.typed + [f.bytes]) else b)
      else if f.Resize? then
        (if MayType(s, env) then b.(size := Winsize(f.cols, f.rows, f.pxW, f.pxH)) else b)
      else if f.Credit? then b.(granted := l.granted + f.n, lost := l.lost + SatSub(s.credit + f.n, U64_MAX))
      else if Attaches(s, e) then b.(queued := Added(s, e), at := |s.stream|, mixed := false)
      else b
    case Readable(env) => b.(read := l.read + (if |t.stream| >= |s.stream| then |t.stream| - |s.stream| else 0))
    case Drain(_, _) => b.(mixed := l.mixed || t.stream != s.stream)
    case Enqueue(f) => b.(mixed := l.mixed || f.Data?)
    case _ => b
  }

  /** The bytes of the DATA frames, in order. */
  function DataOf(fs: seq<Frame>): seq<u8> {
    if fs == [] then [] else DataOf(fs[..|fs| - 1]) + (if fs[|fs| - 1].Data? then fs[|fs| - 1].bytes else [])
  }

  /** What balances after every event: credit and output, and input, the
      terminal's size, the child's end and the frames of the queue. */
  ghost predicate Balanced(s: Session, l: Ledger) {
    Accounted(s, l) && Delivered(s, l)
  }

  ghost predicate Delivered(s: Session, l: Ledger) {
    // The child got what was typed, in order, and nothing else.
    && s.sent == l.typed
    && s.size == l.size
    // An ephemeral child is asked to end when a writer leaves, no other ever.
    && (s.killed <==> s.ephemeral && l.left)
    // No frame but DATA is ever lost or overtaken in the queue.
    && Control(l.taken) + Control(s.outbound) == Control(l.all)
  }

  ghost predicate Accounted(s: Session, l: Ledger) {
    // Offsets count the stream.
    && s.bytesDelivered == Ring.End(s.stream)
    // Nothing is owed to the child between events.
    && s.pendingInput == []
    // Credit granted since the last detach is remaining, spent, or was never representable.
    && s.credit + l.read + l.lost == l.granted
    // A writer whose child is dead has had its true status queued since it attached.
    && (s.generation.Some? && s.childExit.Some? ==> Exit(s.childExit.value) in l.queued && s.exitDelivered)
    // A protocol-1 writer has been queued exactly what was read since it attached.
    && (s.generation.Some? && !l.mixed ==> l.at <= |s.stream| && DataOf(l.queued) == s.stream[l.at..])
  }

  // ---------------------------------------------------------------- proofs

  /** Frames and bytes the books do not mention are left alone. */
  predicate SameBooks(s: Session, t: Session) {
    && t.stream == s.stream && t.bytesDelivered == s.bytesDelivered && t.credit == s.credit
    && t.generation == s.generation && t.childExit == s.childExit && t.exitDelivered == s.exitDelivered
    && t.outbound == s.outbound && t.ephemeral == s.ephemeral && t.killed == s.killed
  }

  lemma {:induction false} FlushEmpties(s: Session, env: Env)
    ensures SameBooks(s, Flush(s, env))
    ensures Flushes(s, env) ==> Flush(s, env).pendingInput == [] && Flush(s, env).sent == s.sent + s.pendingInput
    ensures |s.pendingInput| <= 1 ==> Flush(s, env).pendingInput == []
    decreases |s.pendingInput|
  {
    if s.pendingInput != [] && env.accepts(s.pendingInput[0]) {
      var t := s.(pendingInput := s.pendingInput[1..], sent := s.sent + [s.pendingInput[0]], delivery := Dispatched);
      FlushEmpties(t, env);
      assert s.pendingInput == [s.pendingInput[0]] + s.pendingInput[1..];
    }
  }

  lemma InputKeepsBooks(s: Session, f: Frame, env: Env)
    requires s.pendingInput == [] && (f.Data? || f.Resize?)
    ensures SameBooks(s, OnFrame(s, f, env).0) && OnFrame(s, f, env).0.pendingInput == []
  {
    var l := s.(lease := ExpireLease(s.lease, env.leaseDue));
    FlushEmpties(l, env);
    if f.Data? {
      FlushEmpties(l.(delivery := Pending, pendingInput := s.pendingInput + [f.bytes]), env);
    }
    hide Flush;
  }

  lemma DataOfPush(fs: seq<Frame>, f: Frame)
    ensures DataOf(fs + [f]) == DataOf(fs) + (if f.Data? then f.bytes else [])
  {
    assert (fs + [f])[..|fs|] == fs;
  }

  lemma QueueAdds(s: Session, f: Frame, e: Event)
    requires Possible(e) && !e.DetachWriter? && !e.Pop? && Step(s, e).outbound == s.outbound + [f]
    ensures Added(s, e) == [f]
  {
    assert (s.outbound + [f])[|s.outbound|..] == [f];
  }

  lemma QuietAdds(s: Session, e: Event)
    requires Possible(e) && (e.DetachWriter? || e.Pop? || Step(s, e).outbound == s.outbound)
    ensures Added(s, e) == []
  {
  }

  lemma InputBalances(s: Session, l: Ledger, e: Event)
    requires Possible(e) && Accounted(s, l) && e.Inbound? && (e.frame.Data? || e.frame.Resize?)
    ensures Accounted(Step(s, e), Account(s, l, e))
  {
    InputKeepsBooks(s, e.frame, e.env);
    QuietAdds(s, e);
    hide OnFrame;
    assert l.queued + [] == l.queued;
  }

  lemma AttachBalances(s: Session, l: Ledger, e: Event)
    requires Possible(e) && Accounted(s, l) && e.Inbound? && e.frame.Attach?
    ensures Accounted(Step(s, e), Account(s, l, e))
  {
    if Attaches(s, e) {
      WriterBalances(s, l, e);
    } else if e.frame.observe {
      hide Added, Honest, Ring.End, DataOf;
      QuietAdds(s, e);
      assert l.queued + [] == l.queued;
    } else {
      hide Added, Honest, Ring.End, DataOf;
      QueueAdds(s, Refused(AlreadyAttached), e);
      DataOfPush(l.queued, Refused(AlreadyAttached));
    }
  }

  lemma WriterBalances(s: Session, l: Ledger, e: Event)
    requires Possible(e) && Accounted(s, l) && Attaches(s, e)
    ensures Accounted(Step(s, e), Account(s, l, e))
  {
    hide Added, Honest, Ring.End;
    assert DataOf([]) == [] == s.stream[|s.stream|..];
    if s.childExit.Some? {
      QueueAdds(s, Exit(s.childExit.value), e);
      DataOfPush([], Exit(s.childExit.value));
      assert [] + [Exit(s.childExit.value)] == [Exit(s.childExit.value)];
    } else {
      QuietAdds(s, e);
    }
    hide DataOf;
  }

  lemma SuffixMore(stream: seq<u8>, at: nat, got: seq<u8>)
    requires at <= |stream|
    ensures (stream + got)[at..] == stream[at..] + got
  {
  }

  lemma EndMore(stream: seq<u8>, got: seq<u8>)
    requires |got| <= U64_MAX
    ensures SatAdd64(Ring.End(stream), |got|) == Ring.End(stream + got)
  {
  }

  /** Without a read nothing moves; with one, its bytes go to whoever listens. */
  lemma ReadableIs(s: Session, env: Env)
    requires Honest(env)
    ensures var t, n := OnReadable(s, env).0, Min(s.credit, READ_BUF);
            || (SameBooks(s, t) && t.pendingInput == s.pendingInput)
            || (env.read(n).Some? && |env.read(n).value| <= n
                && var got := env.read(n).value;
                   var u := Took(s, got).(credit := s.credit - |got|);
                   t == if HasListeners(s) then Queue(u, Data(got)) else u)
  {
  }

  lemma ReadableBalances(s: Session, l: Ledger, e: Event)
    requires Possible(e) && Accounted(s, l) && e.Readable?
    ensures Accounted(Step(s, e), Account(s, l, e))
  {
    var t, n: nat := Step(s, e), Min(s.credit, READ_BUF);
    ReadableIs(s, e.env);
    if SameBooks(s, t) && t.pendingInput == s.pendingInput {
      hide DataOf, Added, Honest, OnReadable, Ring.End, HasListeners;
      QuietAdds(s, e);
      assert l.queued + [] == l.queued;
    } else {
      hide Accounted, OnReadable, Honest, Account;
      if HasListeners(s) {
        ShippedBalances(s, l, e, e.env.read(n).value);
      } else {
        UnheardBalances(s, l, e, e.env.read(n).value);
      }
    }
  }

  lemma UnheardBalances(s: Session, l: Ledger, e: Event, got: seq<u8>)
    requires Possible(e) && Accounted(s, l) && e.Readable? && |got| <= Min(s.credit, READ_BUF) && !HasListeners(s)
    requires Step(s, e) == Took(s, got).(credit := s.credit - |got|)
    ensures Accounted(Step(s, e), Account(s, l, e))
  {
    hide DataOf, Added, Honest, OnReadable, Ring.End;
    QuietAdds(s, e);
    EndMore(s.stream, got);
    assert l.queued + [] == l.queued;
  }

  lemma ShippedBalances(s: Session, l: Ledger, e: Event, got: seq<u8>)
    requires Possible(e) && Accounted(s, l) && e.Readable? && |got| <= Min(s.credit, READ_BUF)
    requires Step(s, e) == Queue(Took(s, got).(credit := s.credit - |got|), Data(got))
    ensures Accounted(Step(s, e), Account(s, l, e))
  {
    hide DataOf, Added, Honest, OnReadable, Ring.End;
    QueueAdds(s, Data(got), e);
    DataOfPush(l.queued, Data(got));
    EndMore(s.stream, got);
    if l.at <= |s.stream| {
      SuffixMore(s.stream, l.at, got);
    }
  }

  lemma DrainKeeps(s: Session, max: Option<nat>, env: Env)
    requires Honest(env)
    ensures var t := DrainAtMost(s, max, env).0;
            SameBooks(s.(stream := t.stream, bytesDelivered := t.bytesDelivered), t) && t.pendingInput == s.pendingInput
            && (s.bytesDelivered == Ring.End(s.stream) ==> t.bytesDelivered == Ring.End(t.stream))
  {
    var r := DrainAtMost(s, max, env).1;
    DrainFits(s, max, env);
    hide Honest, Ring.End;
    if r.Done? && r.value.Some? {
      EndMore(s.stream, r.value.value);
    }
  }

  lemma DrainBalances(s: Session, l: Ledger, e: Event)
    requires Possible(e) && Accounted(s, l) && e.Drain?
    ensures Accounted(Step(s, e), Account(s, l, e))
  {
    hide DataOf, Added, Honest, DrainAtMost, Ring.End;
    DrainKeeps(s, e.max, e.env);
    QuietAdds(s, e);
    assert l.queued + [] == l.queued;
  }

  lemma PollBalances(s: Session, l: Ledger, e: Event)
    requires Possible(e) && Accounted(s, l) && e.Poll?
    ensures Accounted(Step(s, e), Account(s, l, e))
  {
    hide DataOf, Added, Honest, Ring.End, PollChild;
    var t := Step(s, e);
    PollIs(s, e.waited);
    if t.outbound == s.outbound {
      QuietAdds(s, e);
      assert l.queued + [] == l.queued;
    } else {
      QueueAdds(s, Exit(t.childExit.value), e);
      DataOfPush(l.queued, Exit(t.childExit.value));
      assert Exit(t.childExit.value) in l.queued + [Exit(t.childExit.value)];
    }
  }

  lemma PollIs(s: Session, waited: Outcome<Option<i32>>)
    ensures var t := PollChild(s, waited).0;
            if t.outbound == s.outbound then t == s.(childExit := t.childExit)
                                             && (s.generation.Some? || s.observers > 0 ==> t == s)
            else t.childExit.Some? && t == QueueExit(s.(childExit := t.childExit), t.childExit.value)
  {
  }

  lemma EnqueueBalances(s: Session, l: Ledger, e: Event)
    requires Possible(e) && Accounted(s, l) && e.Enqueue?
    ensures Accounted(Step(s, e), Account(s, l, e))
  {
    QueueAdds(s, e.frame, e);
    DataOfPush(l.queued, e.frame);
    hide DataOf, Added;
  }

  lemma QuietBalances(s: Session, l: Ledger, e: Event)
    requires Possible(e) && Accounted(s, l)
    requires !e.Readable? && !e.Drain? && !e.Inbound? && !e.Poll? && !e.Enqueue?
    ensures Accounted(Step(s, e), Account(s, l, e))
  {
    QuietAdds(s, e);
    assert l.queued + [] == l.queued;
    hide DataOf, Added, Control;
  }

  lemma PlainFrameBalances(s: Session, l: Ledger, e: Event)
    requires Possible(e) && Accounted(s, l) && e.Inbound? && !e.frame.Data? && !e.frame.Resize? && !e.frame.Attach?
    ensures Accounted(Step(s, e), Account(s, l, e))
  {
    QuietAdds(s, e);
    assert l.queued + [] == l.queued;
    hide DataOf, Added;
  }

  lemma StepAccounts(s: Session, l: Ledger, e: Event)
    requires Possible(e) && Accounted(s, l)
    ensures Accounted(Step(s, e), Account(s, l, e))
  {
    hide Accounted, Step, Account;
    if e.Readable? {
      ReadableBalances(s, l, e);
    } else if e.Drain? {
      DrainBalances(s, l, e);
    } else if e.Poll? {
      PollBalances(s, l, e);
    } else if e.Enqueue? {
      EnqueueBalances(s, l, e);
    } else if !e.Inbound? {
      QuietBalances(s, l, e);
    } else if e.frame.Attach? {
      AttachBalances(s, l, e);
    } else if e.frame.Data? || e.frame.Resize? {
      InputBalances(s, l, e);
    } else {
      PlainFrameBalances(s, l, e);
    }
  }

  // ---------------------------------------------------------------- what is delivered

  /** Dropping DATA frame by frame or all at once is the same. */
  lemma {:induction false} ControlSplits(a: seq<Frame>, b: seq<Frame>)
    ensures Control(a + b) == Control(a) + Control(b)
    decreases a
  {
    if a == [] {
      assert a + b == b;
    } else {
      assert (a + b)[1..] == a[1..] + b;
      ControlSplits(a[1..], b);
    }
  }

  lemma {:induction false} ControlTwice(fs: seq<Frame>)
    ensures Control(Control(fs)) == Control(fs)
    decreases fs
  {
    if fs != [] {
      ControlTwice(fs[1..]);
      ControlSplits(if fs[0].Data? then [] else [fs[0]], Control(fs[1..]));
    }
  }

  /** Frames added at the end of the queue come out at its end. */
  lemma QueueDelivers(s: Session, l: Ledger, more: seq<Frame>)
    requires Control(l.taken) + Control(s.outbound) == Control(l.all)
    ensures Control(l.taken) + Control(s.outbound + more) == Control(l.all + more)
  {
    ControlSplits(s.outbound, more);
    ControlSplits(l.all, more);
    hide Control;
    FramesAssoc(Control(l.taken), Control(s.outbound), Control(more));
  }

  /** Each DATA reaches the child at once, or is refused by it, or not let
      through; and the lease is what it is at that moment. */
  lemma DataIsWritten(s: Session, bytes: seq<u8>, env: Env)
    requires s.pendingInput == []
    ensures var (t, r) := OnFrame(s, Data(bytes), env);
            var due := s.lease.running && env.leaseDue;
            var lease := if due then Lease(s.lease.generation, 0, false) else s.lease;
            if s.childExit.Some? then t == s && r == Fails(Dead)
            else if !MayType(s, env) then t == s.(lease := lease) && r == Done(())
            else if env.accepts(bytes) then
              t == s.(lease := lease, sent := s.sent + [bytes], delivery := Dispatched) && r == Done(())
            else t == s.(lease := lease, delivery := Pending) && r == Fails(Io)
  {
    var l := s.(lease := ExpireLease(s.lease, env.leaseDue), delivery := Pending, pendingInput := [bytes]);
    assert s.pendingInput + [bytes] == [bytes];
    FirstToFlush(l, env);
    NoneToFlush(l.(pendingInput := [], sent := s.sent + [bytes], delivery := Dispatched), env);
    assert [bytes][1..] == [];
    hide Flush, Flushes;
  }

  /** A resize waits for all input queued before it: if some of that is refused
      the size stays, and otherwise all of it was written, in order, first. */
  lemma ResizeIsLast(s: Session, size: Winsize, env: Env)
    ensures var (t, r) := OnFrame(s, Resize(size.cols, size.rows, size.pxW, size.pxH), env);
            if !MayType(s, env) then
              t.sent == s.sent && t.size == s.size && t.pendingInput == s.pendingInput && r == Done(())
            else if exists i :: 0 <= i < |s.pendingInput| && !env.accepts(s.pendingInput[i]) then
              t.size == s.size && r == Fails(Io)
            else t.sent == s.sent + s.pendingInput && t.size == size && t.pendingInput == []
                 && r == if env.resizes then Done(()) else Fails(Io)
  {
    var l := s.(lease := ExpireLease(s.lease, env.leaseDue));
    FlushEmpties(l, env);
    FlushKeepsSize(l, env);
    hide Flush;
  }

  lemma {:induction false} FlushKeepsSize(s: Session, env: Env)
    ensures Flush(s, env).size == s.size
    decreases |s.pendingInput|
  {
    if s.pendingInput != [] && env.accepts(s.pendingInput[0]) {
      FlushKeepsSize(
        s.(pendingInput := s.pendingInput[1..], sent := s.sent + [s.pendingInput[0]], delivery := Dispatched), env);
    }
  }

  lemma InputDelivers(s: Session, l: Ledger, e: Event)
    requires Possible(e) && s.pendingInput == [] && Delivered(s, l) && e.Inbound? && (e.frame.Data? || e.frame.Resize?)
    ensures Delivered(Step(s, e), Account(s, l, e))
  {
    InputKeepsBooks(s, e.frame, e.env);
    QuietAdds(s, e);
    assert l.all + [] == l.all;
    if e.frame.Data? {
      DataIsWritten(s, e.frame.bytes, e.env);
    } else {
      ResizeIsLast(s, Winsize(e.frame.cols, e.frame.rows, e.frame.pxW, e.frame.pxH), e.env);
    }
    hide OnFrame, Control, Honest;
  }

  /** Events that touch neither the input nor the child only add to the queue. */
  lemma OutputDelivers(s: Session, l: Ledger, e: Event)
    requires Possible(e) && Delivered(s, l) && !e.DetachWriter? && !e.Pop?
    requires e.Inbound? ==> !e.frame.Data? && !e.frame.Resize?
    ensures Delivered(Step(s, e), Account(s, l, e))
  {
    OnlyQueues(s, e);
    QueueDelivers(s, l, Added(s, e));
    AccountKeeps(s, l, e);
    hide Control, Step, Honest, Added, Account;
  }

  lemma AccountKeeps(s: Session, l: Ledger, e: Event)
    requires Possible(e) && !e.DetachWriter? && !e.Pop?
    requires e.Inbound? ==> !e.frame.Data? && !e.frame.Resize?
    ensures var m := Account(s, l, e);
            m.typed == l.typed && m.size == l.size && m.left == l.left && m.taken == l.taken && m.all == l.all + Added(s, e)
  {
    hide Step, Honest, Added;
  }

  lemma OnlyQueues(s: Session, e: Event)
    requires Possible(e) && !e.DetachWriter? && !e.Pop?
    requires e.Inbound? ==> !e.frame.Data? && !e.frame.Resize?
    ensures var t := Step(s, e);
            t.sent == s.sent && t.size == s.size && t.killed == s.killed && t.ephemeral == s.ephemeral
            && t.outbound == s.outbound + Added(s, e)
  {
    assert s.outbound + [] == s.outbound;
    hide Added, Honest, HasListeners, Step;
    StepQueues(s, e);
    var t := Step(s, e);
    if t.outbound == s.outbound {
      QuietAdds(s, e);
    } else {
      QueueAdds(s, t.outbound[|s.outbound|], e);
    }
  }

  /** At most one frame is queued, and nothing is written. */
  ghost predicate QueuesOne(s: Session, t: Session) {
    && t.sent == s.sent && t.size == s.size && t.killed == s.killed && t.ephemeral == s.ephemeral
    && (t.outbound == s.outbound
        || (|t.outbound| == |s.outbound| + 1 && t.outbound == s.outbound + [t.outbound[|s.outbound|]]))
  }

  lemma StepQueues(s: Session, e: Event)
    requires Possible(e) && !e.DetachWriter? && !e.Pop?
    requires e.Inbound? ==> !e.frame.Data? && !e.frame.Resize?
    ensures QueuesOne(s, Step(s, e))
  {
    hide Honest, QueuesOne, OnFrame, OnReadable, DrainAtMost, PollChild, Ring.Kept;
    match e
    case Inbound(f, env) => FrameQueues(s, f, env);
    case Readable(env) => ReadableQueues(s, env);
    case Drain(max, env) => DrainQueues(s, max, env);
    case Poll(waited) => PollQueues(s, waited);
    case _ => OthersQueue(s, e);
  }

  lemma FrameQueues(s: Session, f: Frame, env: Env)
    requires !f.Data? && !f.Resize?
    ensures QueuesOne(s, OnFrame(s, f, env).0)
  {
    hide TakeLease;
  }

  lemma PollQueues(s: Session, waited: Outcome<Option<i32>>)
    ensures QueuesOne(s, PollChild(s, waited).0)
  {
    hide HasListeners;
  }

  lemma OthersQueue(s: Session, e: Event)
    requires Possible(e) && !e.DetachWriter? && !e.Pop?
    requires !e.Inbound? && !e.Readable? && !e.Drain? && !e.Poll?
    ensures QueuesOne(s, Step(s, e))
  {
    hide Ring.Kept;
  }

  lemma ReadableQueues(s: Session, env: Env)
    requires Honest(env)
    ensures QueuesOne(s, OnReadable(s, env).0)
  {
    hide HasListeners;
  }

  lemma DrainQueues(s: Session, max: Option<nat>, env: Env)
    requires Honest(env)
    ensures QueuesOne(s, DrainAtMost(s, max, env).0)
  {
  }

  lemma QueueOutDelivers(s: Session, l: Ledger, e: Event)
    requires Delivered(s, l) && (e.DetachWriter? || e.Pop?)
    ensures Delivered(Step(s, e), Account(s, l, e))
  {
    QuietAdds(s, e);
    assert l.all + [] == l.all;
    hide Control, Added;
    if e.DetachWriter? {
      ControlTwice(s.outbound);
    } else if s.outbound != [] {
      PopDelivers(l.taken, s.outbound);
    }
  }

  lemma FramesAssoc(a: seq<Frame>, b: seq<Frame>, c: seq<Frame>)
    ensures a + (b + c) == a + b + c
  {
  }

  /** The frame at the head of the queue is the next one out. */
  lemma PopDelivers(taken: seq<Frame>, queue: seq<Frame>)
    requires queue != []
    ensures Control(taken + [queue[0]]) + Control(queue[1..]) == Control(taken) + Control(queue)
  {
    hide Control;
    var head, rest := [queue[0]], queue[1..];
    assert queue == head + rest;
    ControlSplits(taken, head);
    ControlSplits(head, rest);
    FramesAssoc(Control(taken), Control(head), Control(rest));
  }

  lemma StepDelivers(s: Session, l: Ledger, e: Event)
    requires Possible(e) && Balanced(s, l)
    ensures Delivered(Step(s, e), Account(s, l, e))
  {
    assert s.pendingInput == [];
    hide Delivered, Step, Account, Accounted, Honest;
    if e.Inbound? && (e.frame.Data? || e.frame.Resize?) {
      InputDelivers(s, l, e);
    } else if e.DetachWriter? || e.Pop? {
      QueueOutDelivers(s, l, e);
    } else {
      OutputDelivers(s, l, e);
    }
  }

  lemma StepBalances(s: Session, l: Ledger, e: Event)
    requires Possible(e) && Balanced(s, l)
    ensures Balanced(Step(s, e), Account(s, l, e))
  {
    StepAccounts(s, l, e);
    StepDelivers(s, l, e);
    hide Accounted, Delivered, Step, Account;
  }

  ghost predicate AllPossible(es: seq<Event>) {
    forall i :: 0 <= i < |es| ==> Possible(es[i])
  }

  function Run(s: Session, es: seq<Event>): Session
    requires AllPossible(es)
    decreases |es|
  {
    if es == [] then s else Run(Step(s, es[0]), es[1..])
  }

  function Books(s: Session, l: Ledger, es: seq<Event>): Ledger
    requires AllPossible(es)
    decreases |es|
  {
    if es == [] then l else Books(Step(s, es[0]), Account(s, l, es[0]), es[1..])
  }

  /** Every interleaving of attach, credit, read, child exit and detach keeps
      the books balanced. */
  lemma {:induction false} RunBalances(s: Session, l: Ledger, es: seq<Event>)
    requires AllPossible(es) && Balanced(s, l)
    ensures Balanced(Run(s, es), Books(s, l, es))
    decreases |es|
  {
    hide Balanced, Step, Account;
    if es != [] {
      StepBalances(s, l, es[0]);
      RunBalances(Step(s, es[0]), Account(s, l, es[0]), es[1..]);
    }
  }

  /** From a new session on, every interleaving keeps the books balanced. */
  lemma EveryRunBalances(cap: nat, size: Winsize, ephemeral: bool, es: seq<Event>)
    requires AllPossible(es)
    ensures Balanced(Run(Spawned(cap, size, ephemeral), es), Books(Spawned(cap, size, ephemeral), Opened(size), es))
  {
    hide Run, Books, AllPossible;
    assert Balanced(Spawned(cap, size, ephemeral), Opened(size));
    RunBalances(Spawned(cap, size, ephemeral), Opened(size), es);
  }
}
