/** The session object: its fields, updated in place, do what `SessionSpec`
    says at every event. */
module SessionObject {
  import opened VtTypes
  import opened Attach
  import opened Ring
  import opened SessionSpec
  import S = SessionSpec

  class Session {
    const ring: ByteRing
    const ephemeral: bool
    var generation: Option<u64>
    var credit: u64
    var outbound: seq<Frame>
    var pendingInput: seq<seq<u8>>
    var childExit: Option<i32>
    var exitDelivered: bool
    var resyncPending: bool
    var resyncCount: u32
    var stalledReads: u64
    var bytesDelivered: u64
    var size: Winsize
    var delivery: InputDelivery
    var observers: u32
    var checkpoint: Option<StoredCheckpoint>
    var lease: Lease
    /** The child was asked to end. */
    var killed: bool
    /** The buffers the child has accepted. */
    ghost var sent: seq<seq<u8>>

    ghost predicate Valid()
      reads this, ring
    {
      ring.Valid()
    }

    ghost function Abs(): S.Session
      reads this, ring
    {
      S.Session(ring.stream, ring.cap, sent, generation, credit, outbound, pendingInput, childExit, exitDelivered,
                resyncPending, resyncCount, stalledReads, bytesDelivered, size, delivery, observers, checkpoint, lease,
                ephemeral, killed)
    }

    constructor (cap: nat, size: Winsize, ephemeral: bool)
      ensures Valid() && fresh(ring) && Abs() == S.Spawned(cap, size, ephemeral)
    {
      ring := new ByteRing(cap);
      generation, credit, outbound, pendingInput := None, 0, [], [];
      childExit, exitDelivered, resyncPending, resyncCount := None, false, false, 0;
      stalledReads, bytesDelivered, this.size, delivery := 0, 0, size, Unknown;
      observers, checkpoint, lease, sent := 0, None, Lease(0, 0, false), [];
      this.ephemeral, killed := ephemeral, false;
    }

    // ---------------------------------------------------------------- queue

    method EnqueueOutbound(f: Frame)
      requires Valid()
      modifies `outbound
      ensures Valid() && Abs() == S.Step(old(Abs()), Enqueue(f))
    {
      outbound := outbound + [f];
    }

    method PopOutbound() returns (f: Option<Frame>)
      requires Valid()
      modifies `outbound
      ensures Valid() && Abs() == S.Step(old(Abs()), Pop)
      ensures f == if old(outbound) == [] then None else Some(old(outbound)[0])
    {
      if outbound == [] {
        return None;
      }
      f := Some(outbound[0]);
      outbound := outbound[1..];
    }

    method TakeResyncHistory() returns (history: Option<seq<u8>>)
      requires Valid()
      modifies `resyncPending, `resyncCount
      ensures Valid() && (Abs(), history) == S.TakeResync(old(Abs()))
    {
      if !resyncPending {
        return None;
      }
      resyncPending := false;
      resyncCount := SatAdd32(resyncCount, 1);
      history := Some(ring.Snapshot());
    }

    method HasListeners() returns (b: bool)
      ensures b == S.HasListeners(Abs())
    {
      b := generation.Some? || observers > 0;
    }

    // ---------------------------------------------------------------- lifecycle

    method PollChild(waited: Outcome<Option<i32>>) returns (r: Outcome<bool>)
      requires Valid()
      modifies `childExit, `outbound, `exitDelivered
      ensures Valid() && (Abs(), r) == S.PollChild(old(Abs()), waited)
    {
      if childExit.Some? {
        return Done(false);
      }
      if waited.Fails? {
        return Fails(waited.error);
      }
      if waited.value.None? {
        return Done(false);
      }
      childExit := waited.value;
      var listening := HasListeners();
      if listening {
        QueueExit(childExit.value);
      }
      return Done(true);
    }

    method Detach()
      requires Valid()
      modifies `generation, `credit, `killed, `delivery, `pendingInput, `outbound
      ensures Valid() && Abs() == S.Detach(old(Abs()))
    {
      hide S.Control, ByteRing.Valid;
      generation := None;
      credit := 0;
      if ephemeral {
        killed := true;
      }
      LosePending();
    }

    /** What nobody waits for any more: queued input and DATA. */
    method LosePending()
      requires Valid()
      modifies `delivery, `pendingInput, `outbound
      ensures Valid()
      ensures Abs() == old(Abs()).(outbound := S.Control(old(outbound)), pendingInput := [],
                                   delivery := if old(pendingInput) != [] then Unknown else old(delivery))
    {
      hide S.Control, ByteRing.Valid;
      if pendingInput != [] {
        delivery := Unknown;
        pendingInput := [];
      }
      outbound := S.Control(outbound);
    }

    method ReleaseObserver()
      requires Valid()
      modifies `observers
      ensures Valid() && Abs() == S.Step(old(Abs()), S.ReleaseObserver)
    {
      observers := SatSub(observers, 1);
    }

    method InstallCheckpoint(rec: StoredCheckpoint) returns (r: Outcome<()>)
      requires Valid()
      modifies `checkpoint
      ensures Valid() && (Abs(), r) == S.InstallCheckpoint(old(Abs()), rec)
    {
      if rec.version != CHECKPOINT_FORMAT_VERSION {
        return Fails(IncompatibleCheckpoint);
      }
      checkpoint := Some(rec);
      return Done(());
    }

    method Recovery() returns (r: Outcome<(StoredCheckpoint, seq<u8>)>)
      requires Valid()
      ensures r == S.Recovery(Abs())
    {
      if checkpoint.None? {
        return Fails(NoCheckpoint);
      }
      var deltas := ring.DeltasAfter(checkpoint.value.endingOffset);
      if deltas.None? {
        return Fails(CheckpointEvicted);
      }
      return Done((checkpoint.value, deltas.value));
    }

    // ---------------------------------------------------------------- frames in

    method TakeInputLease(nonce: u64)
      requires Valid()
      modifies `lease
      ensures Valid() && Abs() == old(Abs()).(lease := S.TakeLease(old(lease), nonce))
    {
      lease := Lease(SatAdd64(lease.generation, 1), nonce, true);
    }

    method LeaseBlocksInput(due: bool) returns (blocked: bool)
      requires Valid()
      modifies `lease
      ensures Valid() && Abs() == old(Abs()).(lease := S.ExpireLease(old(lease), due))
      ensures blocked == S.BlocksInput(lease)
    {
      if lease.running && due {
        lease := lease.(nonce := 0, running := false);
      }
      blocked := lease.generation > 0 && lease.nonce == 0;
    }

    method FlushInput(env: Env) returns (r: Outcome<()>)
      requires Valid()
      modifies `pendingInput, `delivery, `sent
      ensures Valid() && Abs() == S.Flush(old(Abs()), env)
      ensures r == if S.Flushes(old(Abs()), env) then Done(()) else Fails(Io)
    {
      hide S.Flush, S.Flushes, ByteRing.Valid;
      S.NoneToFlush(old(Abs()), env);
      while pendingInput != []
        invariant S.Flush(Abs(), env) == S.Flush(old(Abs()), env)
        invariant S.Flushes(Abs(), env) == S.Flushes(old(Abs()), env)
        decreases |pendingInput|
      {
        var buf := pendingInput[0];
        S.FirstToFlush(Abs(), env);
        pendingInput := pendingInput[1..];
        if !env.accepts(buf) {
          return Fails(Io);
        }
        sent := sent + [buf];
        delivery := Dispatched;
      }
      S.NoneToFlush(Abs(), env);
      return Done(());
    }

    method OnAttach(g: u64, observe: bool)
      requires Valid()
      modifies `generation, `resyncPending, `lease, `outbound, `exitDelivered, `observers
      ensures Valid() && Abs() == S.OnAttach(old(Abs()), g, observe)
    {
      hide ByteRing.Valid;
      if observe {
        observers := SatAdd32(observers, 1);
        return;
      }
      if generation.Some? {
        outbound := outbound + [Refused(AlreadyAttached)];
        return;
      }
      generation := Some(g);
      resyncPending := true;
      TakeInputLease(g);
      if childExit.Some? {
        QueueExit(childExit.value);
      }
    }

    method QueueExit(status: i32)
      requires Valid()
      modifies `outbound, `exitDelivered
      ensures Valid() && Abs() == S.QueueExit(old(Abs()), status)
    {
      hide ByteRing.Valid;
      outbound := outbound + [Exit(status)];
      exitDelivered := true;
    }

    method OnResize(to: Winsize, env: Env) returns (r: Outcome<()>)
      requires Valid()
      modifies `lease, `pendingInput, `delivery, `sent, `size
      ensures Valid() && (Abs(), r) == S.OnResize(old(Abs()), to, env)
    {
      hide S.Flush, S.Flushes;
      var blocked := LeaseBlocksInput(env.leaseDue);
      if blocked {
        return Done(());
      }
      r := FlushInput(env);
      if r.Fails? {
        return;
      }
      size := to;
      if !env.resizes {
        return Fails(Io);
      }
    }

    method OnData(bytes: seq<u8>, env: Env) returns (r: Outcome<()>)
      requires Valid()
      modifies `lease, `pendingInput, `delivery, `sent
      ensures Valid() && (Abs(), r) == S.OnData(old(Abs()), bytes, env)
    {
      hide S.Flush, S.Flushes;
      if childExit.Some? {
        return Fails(Dead);
      }
      var blocked := LeaseBlocksInput(env.leaseDue);
      if blocked {
        return Done(());
      }
      delivery := Pending;
      pendingInput := pendingInput + [bytes];
      r := FlushInput(env);
    }

    method OnFrame(f: Frame, env: Env) returns (r: Outcome<()>)
      requires Valid()
      modifies this
      ensures Valid() && (Abs(), r) == S.OnFrame(old(Abs()), f, env)
    {
      hide S.OnData, S.OnResize, S.OnAttach;
      match f
      case Attach(g, _, _, observe) =>
        OnAttach(g, observe);
        r := Done(());
      case Credit(n) =>
        credit := SatAdd64(credit, n);
        r := Done(());
      case Resize(c, h, w, x) => r := OnResize(Winsize(c, h, w, x), env);
      case Data(bytes) => r := OnData(bytes, env);
      case _ => r := Done(());
    }

    // ---------------------------------------------------------------- child output

    method NoteStalledRead()
      requires Valid()
      modifies `stalledReads
      ensures Valid() && Abs() == S.Stall(old(Abs()))
    {
      stalledReads := SatAdd64(stalledReads, 1);
    }

    method Took(bytes: seq<u8>)
      requires Valid() && |bytes| <= READ_BUF
      modifies ring, `bytesDelivered
      ensures Valid() && Abs() == S.Took(old(Abs()), bytes)
    {
      ring.Append(bytes);
      bytesDelivered := SatAdd64(bytesDelivered, |bytes|);
    }

    method DrainPtyAtMost(max: Option<nat>, env: Env) returns (r: Outcome<Option<seq<u8>>>)
      requires Valid() && Honest(env)
      modifies `stalledReads, ring, `bytesDelivered
      ensures Valid() && (Abs(), r) == S.DrainAtMost(old(Abs()), max, env)
    {
      hide S.Took, S.Stall;
      if childExit.Some? {
        return Done(None);
      }
      var cap := if max.Some? then Min(max.value, READ_BUF) else READ_BUF;
      if cap == 0 {
        NoteStalledRead();
        return Done(None);
      }
      var got := env.read(cap);
      if got.None? {
        return Fails(Io);
      }
      if got.value == [] {
        return Done(None);
      }
      Took(got.value);
      return Done(got);
    }

    method OnPtyReadable(env: Env) returns (r: Outcome<nat>)
      requires Valid() && Honest(env)
      modifies `stalledReads, ring, `bytesDelivered, `credit, `outbound
      ensures Valid() && (Abs(), r) == S.OnReadable(old(Abs()), env)
    {
      if credit == 0 {
        NoteStalledRead();
        return Done(0);
      }
      var n := Min(credit, READ_BUF);
      var got := env.read(n);
      if got.None? {
        return Fails(Io);
      }
      if got.value == [] {
        return Done(0);
      }
      Took(got.value);
      credit := credit - |got.value|;
      var listening := HasListeners();
      if listening {
        outbound := outbound + [Data(got.value)];
      }
      return Done(|got.value|);
    }
  }
}
