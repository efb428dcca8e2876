/** The worker object: one leaf's session and the clients attached. */
module FanoutObject {
  import opened VtTypes
  import opened Attach
  import opened FanoutSpec
  import X = SessionSpec
  import SessionObject

  class Worker {
    const id: u64
    const session: SessionObject.Session
    var clients: seq<Client>

    ghost predicate Valid()
      reads this, session, session.ring
    {
      session.Valid()
    }

    ghost function Abs(): FanoutSpec.Worker
      reads this, session, session.ring
    {
      FanoutSpec.Worker(session.Abs(), clients)
    }

    constructor (id: u64, session: SessionObject.Session)
      requires session.Valid()
      ensures Valid() && this.id == id && this.session == session && clients == []
    {
      this.id, this.session, clients := id, session, [];
    }

    /** `protocol1_writer_credit`. */
    method Protocol1WriterCredit() returns (least: Option<u64>)
      ensures least == WriterCredit(clients, id)
    {
      least := None;
      var i := 0;
      while i < |clients|
        invariant 0 <= i <= |clients| && least == WriterCredit(clients[..i], id)
      {
        var c := clients[i];
        assert clients[..i + 1][..i] == clients[..i];
        if c.leaf == Some(id) && !c.observe && c.protocol != PROTOCOL_2 {
          least := if least.None? then Some(c.credit) else Some(Min(least.value, c.credit));
        }
        i := i + 1;
      }
      assert clients[..|clients|] == clients;
    }

    lemma FrameFits(offset: u64, bytes: seq<u8>)
      requires |bytes| <= X.READ_BUF
      ensures Encode(Data(bytes)).Ok? && Encode(Delta(offset, bytes)).Ok?
    {
    }

    /** `fanout_pty_bytes`. */
    method FanoutPtyBytes(offset: u64, bytes: seq<u8>)
      requires |bytes| <= X.READ_BUF
      modifies `clients
      ensures clients == ServedAll(id, old(clients), offset, bytes)
    {
      hide Encode;
      var i := 0;
      while i < |clients|
        invariant 0 <= i <= |clients| == |old(clients)|
        invariant forall k :: 0 <= k < i ==> clients[k] == Served(id, old(clients)[k], offset, bytes)
        invariant forall k :: i <= k < |clients| ==> clients[k] == old(clients)[k]
      {
        var c := clients[i];
        var chunk := LiveChunk(c.credit, |bytes|);
        if c.leaf == Some(id) && chunk.Some? {
          FrameFits(SatSub(offset, |bytes|), bytes);
          var frame :=
            if c.protocol == PROTOCOL_2 then Delta(SatSub(offset, |bytes|), bytes[..chunk.value])
            else Data(bytes[..chunk.value]);
          assert bytes[..chunk.value] == bytes;
          clients := clients[i := c.(credit := c.credit - chunk.value, outbox := c.outbox + Encode(frame).value)];
        }
        i := i + 1;
      }
    }

    /** The drain loop for a readable leaf, `envs` being what the terminal
        answers turn after turn. It stops at the first turn that reads nothing:
        no credit, nothing there, or an error. */
    method DrainLeaf(envs: seq<X.Env>) returns (r: X.Outcome<()>, turns: nat)
      requires Valid() && forall k :: 0 <= k < |envs| ==> X.Honest(envs[k])
      modifies this, session, session.ring
      ensures Valid() && turns <= |envs| && Abs() == Turns(id, old(Abs()), envs, turns)
      ensures forall k {:trigger Turns(id, old(Abs()), envs, k)} :: 0 <= k < turns - 1 ==>
                GoesOn(id, Turns(id, old(Abs()), envs, k), envs[k])
      ensures turns < |envs| ==> turns > 0 && !GoesOn(id, Turns(id, old(Abs()), envs, turns - 1), envs[turns - 1])
    {
      hide Turn, GoesOn;
      r, turns := X.Done(()), 0;
      while turns < |envs|
        invariant turns <= |envs| && Valid() && Abs() == Turns(id, old(Abs()), envs, turns)
        invariant forall k {:trigger Turns(id, old(Abs()), envs, k)} :: 0 <= k < turns ==>
                    GoesOn(id, Turns(id, old(Abs()), envs, k), envs[k])
      {
        var more;
        r, more := DrainTurn(envs[turns]);
        turns := turns + 1;
        if !more {
          break;
        }
      }
    }

    /** One turn: read within the writers' credit and fan out what came. */
    method DrainTurn(env: X.Env) returns (r: X.Outcome<()>, more: bool)
      requires Valid() && X.Honest(env)
      modifies this, session, session.ring
      ensures Valid() && Abs() == Turn(id, old(Abs()), env) && more == GoesOn(id, old(Abs()), env)
    {
      hide X.DrainAtMost, ServedAll, WriterCredit;
      ghost var before := Abs();
      var cap := Protocol1WriterCredit();
      var drained := X.Done(None);
      if cap == Some(0) {
        session.NoteStalledRead();
      } else {
        drained := session.DrainPtyAtMost(cap, env);
      }
      if drained.Fails? {
        return X.Fails(drained.error), false;
      }
      if drained.value.None? {
        return X.Done(()), false;
      }
      X.DrainFits(before.session, cap, env);
      FanoutPtyBytes(session.bytesDelivered, drained.value.value);
      return X.Done(()), true;
    }
  }
}
