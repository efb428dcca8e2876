/** What each event does to a session, field by field: whom it tells, what it
    reads, what it leaves waiting. */
module SessionLaws {
  import opened VtTypes
  import opened Attach
  import opened SessionSpec
  import Ring

  predicate Heard(s: Session) {
    s.generation.Some? || s.observers > 0
  }

  /** An observer is counted. A writer beside another is refused and changes
      nothing else; otherwise it takes the session and a new lease, is owed the
      history, and is told at once when the child is already dead. */
  lemma AttachIs(s: Session, generation: u64, id: Option<u64>, protocol: u8, observe: bool, env: Env)
    ensures var t := OnFrame(s, Attach(generation, id, protocol, observe), env).0;
            (t
             == if observe then s.(observers := if s.observers == U32_MAX then U32_MAX else s.observers + 1)
                else if s.generation.Some? then s.(outbound := s.outbound + [Refused(AlreadyAttached)])
                else
                  var a := s.(generation := Some(generation), resyncPending := true,
                              lease := Lease(Min(s.lease.generation + 1, U64_MAX), generation, true));
                  if s.childExit.None? then a
                  else a.(outbound := s.outbound + [Exit(s.childExit.value)], exitDelivered := true))
  {
  }

  /** With credit, a readable child is read, as much as the credit and one
      buffer allow; what comes is kept, paid for, and sent to whoever listens.
      Without credit nothing is read, and that is counted. */
  lemma ReadableReads(s: Session, env: Env)
    requires Honest(env)
    ensures var (t, r) := OnReadable(s, env);
            if s.credit == 0 then t == s.(stalledReads := Min(s.stalledReads + 1, U64_MAX)) && r == Done(0)
            else
              var answer := env.read(Min(s.credit, 65536));
              if answer.None? then t == s && r == Fails(Io)
              else if answer.value == [] then t == s && r == Done(0)
              else
                var got := answer.value;
                && r == Done(|got|)
                && t == s.(stream := s.stream + got, bytesDelivered := Min(s.bytesDelivered + |got|, U64_MAX),
                           credit := s.credit - |got|,
                           outbound := s.outbound + (if Heard(s) then [Data(got)] else []))
  {
    assert s.outbound + [] == s.outbound;
    hide Honest;
  }

  /** The worker's read is bounded by its window instead, and hands the bytes to
      the worker; a dead child is not read. */
  lemma DrainReads(s: Session, max: Option<nat>, env: Env)
    requires Honest(env)
    ensures var (t, r) := DrainAtMost(s, max, env);
            if s.childExit.Some? then t == s && r == Done(None)
            else if max == Some(0) then t == s.(stalledReads := Min(s.stalledReads + 1, U64_MAX)) && r == Done(None)
            else
              var answer := env.read(if max.None? || max.value > 65536 then 65536 else max.value);
              if answer.None? then t == s && r == Fails(Io)
              else if answer.value == [] then t == s && r == Done(None)
              else
                && r == Done(Some(answer.value))
                && t == s.(stream := s.stream + answer.value,
                           bytesDelivered := Min(s.bytesDelivered + |answer.value|, U64_MAX))
  {
    hide Honest;
  }

  /** The child's status is taken down the first time it is there, and told to
      whoever listens then; nobody is told twice. */
  lemma ExitIsTold(s: Session, waited: Outcome<Option<i32>>)
    ensures var (t, r) := PollChild(s, waited);
            if s.childExit.Some? then t == s && r == Done(false)
            else if waited.Fails? then t == s && r == Fails(waited.error)
            else if waited.value.None? then t == s && r == Done(false)
            else
              && r == Done(true)
              && t == s.(childExit := waited.value, exitDelivered := s.exitDelivered || Heard(s),
                         outbound := s.outbound + (if Heard(s) then [Exit(waited.value.value)] else []))
  {
    assert s.outbound + [] == s.outbound;
  }

  /** What is queued behind DATA keeps its place when a writer leaves. */
  ghost predicate Without(fs: seq<Frame>, kept: seq<Frame>)
    decreases |fs|
  {
    if fs == [] then kept == []
    else
      var n := |fs| - 1;
      if fs[n].Data? then Without(fs[..n], kept)
      else |kept| > 0 && kept[|kept| - 1] == fs[n] && Without(fs[..n], kept[..|kept| - 1])
  }

  lemma {:induction false} ControlIsWithout(fs: seq<Frame>)
    ensures Without(fs, Control(fs))
    decreases |fs|
  {
    if fs != [] {
      var n := |fs| - 1;
      assert fs == fs[..n] + [fs[n]];
      ControlSplits(fs[..n], [fs[n]]);
      ControlIsWithout(fs[..n]);
      var kept := Control(fs[..n]);
      assert kept + [] == kept && (kept + [fs[n]])[..|kept|] == kept;
    }
  }

  /** A writer that leaves gives back its credit; DATA and unwritten input are
      dropped, everything else stays queued in order, and an ephemeral child is
      asked to end. */
  lemma DetachIs(s: Session)
    ensures var t := Detach(s);
            && Without(s.outbound, t.outbound)
            && t == s.(generation := None, credit := 0, pendingInput := [], outbound := t.outbound,
                       killed := s.killed || s.ephemeral,
                       delivery := if |s.pendingInput| > 0 then Unknown else s.delivery)
  {
    ControlIsWithout(s.outbound);
    hide Control, Without;
  }

  /** The history is handed out once for every writer: the last bytes of all
      that was read, as many as the ring keeps. */
  lemma HistoryOnce(s: Session)
    ensures var (t, h) := TakeResync(s);
            && (h.Some? <==> s.resyncPending) && !t.resyncPending && TakeResync(t) == (t, None)
            && (h.Some? ==>
                  h.value == s.stream[Max(0, |s.stream| - s.cap)..]
                  && t.resyncCount == Min(s.resyncCount + 1, U32_MAX))
            && t == s.(resyncPending := false, resyncCount := t.resyncCount)
  {
  }

  /** A checkpoint of the known version is kept; recovery then gives it back
      with the bytes after it, while the ring still has them all. */
  lemma RecoveryIs(s: Session, rec: StoredCheckpoint)
    requires |s.stream| <= U64_MAX && s.cap <= U64_MAX
    ensures var (t, r) := InstallCheckpoint(s, rec);
            if rec.version != 1 then t == s && r == Fails(IncompatibleCheckpoint)
            else
              && r == Done(()) && t == s.(checkpoint := Some(rec))
              && Recovery(t) == (if |s.stream| - s.cap <= rec.endingOffset <= |s.stream|
                                 then Done((rec, s.stream[rec.endingOffset..])) else Fails(CheckpointEvicted))
    ensures s.checkpoint.None? ==> Recovery(s) == Fails(NoCheckpoint)
  {
    Ring.DeltasAreSuffix(s.stream, s.cap, rec.endingOffset);
    hide Ring.Deltas;
  }

  /** The queue is a queue; observers are counted down, never below none; a
      stalled read is counted. */
  lemma HostCallsAre(s: Session, f: Frame)
    ensures Step(s, Enqueue(f)) == s.(outbound := s.outbound + [f])
    ensures Step(s.(outbound := [f] + s.outbound), Pop) == s && Step(s.(outbound := []), Pop) == s.(outbound := [])
    ensures Step(s, ReleaseObserver) == s.(observers := Max(0, s.observers - 1))
    ensures Step(s, NoteStall) == s.(stalledReads := Min(s.stalledReads + 1, U64_MAX))
  {
    assert ([f] + s.outbound)[1..] == s.outbound;
  }
}
