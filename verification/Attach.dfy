/** The attach protocol's frames on the wire, and the decoder that puts them
    together again from a byte stream cut anywhere. */
module Attach {
  import opened VtTypes
  import opened Bytes

  const MAX_FRAME := 4 * 1024 * 1024
  const PROTOCOL_VERSION: u8 := 1

  type i32 = x: int | -0x8000_0000 <= x < 0x8000_0000

  datatype RefuseReason = AlreadyAttached | Invalid | ProtocolMismatch

  datatype Frame =
    | Data(bytes: seq<u8>)
    | Credit(n: u32)
    | Resize(cols: u16, rows: u16, pxW: u16, pxH: u16)
    | Exit(status: i32)
    | Attach(generation: u64, sessionId: Option<u64>, protocol: u8, observe: bool)
    | Refused(reason: RefuseReason)
    | Checkpoint(endingOffset: u64, hash: u64, blob: seq<u8>)
    | Delta(startOffset: u64, delta: seq<u8>)
    | ResyncRequest

  datatype FrameError = UnknownTag(tag: u8) | UnknownRefuse(code: u8) | Truncated | TooLarge(size: nat)

  datatype Result<+T> = Ok(value: T) | Err(error: FrameError)

  // ---------------------------------------------------------------- one frame

  function TagOf(f: Frame): (t: u8)
    ensures 1 <= t <= 9
  {
    match f
    case Data(_) => 1
    case Credit(_) => 2
    case Resize(_, _, _, _) => 3
    case Exit(_) => 4
    case Attach(_, _, _, _) => 5
    case Refused(_) => 6
    case Checkpoint(_, _, _) => 7
    case Delta(_, _) => 8
    case ResyncRequest => 9
  }

  function ReasonByte(r: RefuseReason): (b: u8)
    ensures 1 <= b <= 3
  {
    match r
    case AlreadyAttached => 1
    case Invalid => 2
    case ProtocolMismatch => 3
  }

  /** Two's complement. */
  function Unsigned(n: i32): u32 {
    if n < 0 then n + 0x1_0000_0000 else n
  }

  function Signed(n: u32): i32 {
    if n >= 0x8000_0000 then n - 0x1_0000_0000 else n
  }

  /** Whether an attach needs the protocol and flag bytes. */
  predicate Extra(protocol: u8, observe: bool) {
    protocol != PROTOCOL_VERSION || observe
  }

  function AttachPayload(generation: u64, sessionId: Option<u64>, protocol: u8, observe: bool): seq<u8> {
    Put64(generation)
    + (if sessionId.Some? then Put64(sessionId.value) else if Extra(protocol, observe) then Put64(0) else [])
    + (if Extra(protocol, observe) then [protocol, if observe then 1 else 0] else [])
  }

  function Payload(f: Frame): seq<u8> {
    match f
    case Data(b) => b
    case Credit(n) => Put32(n)
    case Resize(c, r, w, h) => Put16(c) + Put16(r) + Put16(w) + Put16(h)
    case Exit(s) => Put32(Unsigned(s))
    case Attach(g, id, p, o) => AttachPayload(g, id, p, o)
    case Refused(r) => [ReasonByte(r)]
    case Checkpoint(e, h, b) => Put64(e) + Put64(h) + b
    case Delta(s, b) => Put64(s) + b
    case ResyncRequest => []
  }

  function Encode(f: Frame): Result<seq<u8>> {
    var p := Payload(f);
    if |p| > MAX_FRAME then Err(TooLarge(|p|)) else Ok([TagOf(f)] + Put32(|p|) + p)
  }

  function DecodeAttach(p: seq<u8>): Result<Frame> {
    if |p| == 8 then Ok(Attach(Get64(p), None, PROTOCOL_VERSION, false))
    else if |p| == 16 then Ok(Attach(Get64(p), Some(Get64(p[8..])), PROTOCOL_VERSION, false))
    else if |p| == 18 then
      var id := Get64(p[8..16]);
      Ok(Attach(Get64(p), if id == 0 then None else Some(id), p[16], p[17] % 2 == 1))
    else Err(FrameError.Truncated)
  }

  function DecodeRefused(p: seq<u8>): Result<Frame> {
    if |p| != 1 then Err(FrameError.Truncated)
    else if p[0] == 1 then Ok(Refused(AlreadyAttached))
    else if p[0] == 2 then Ok(Refused(Invalid))
    else if p[0] == 3 then Ok(Refused(ProtocolMismatch))
    else Err(UnknownRefuse(p[0]))
  }

  function Decode(tag: u8, p: seq<u8>): Result<Frame>
    requires 1 <= tag <= 9
  {
    if tag == 1 then Ok(Data(p))
    else if tag == 2 then (if |p| == 4 then Ok(Credit(Get32(p))) else Err(FrameError.Truncated))
    else if tag == 3 then
      (if |p| == 8 then Ok(Resize(Get16(p), Get16(p[2..]), Get16(p[4..]), Get16(p[6..]))) else Err(FrameError.Truncated))
    else if tag == 4 then (if |p| == 4 then Ok(Exit(Signed(Get32(p)))) else Err(FrameError.Truncated))
    else if tag == 5 then DecodeAttach(p)
    else if tag == 6 then DecodeRefused(p)
    else if tag == 7 then
      (if |p| >= 16 then Ok(Checkpoint(Get64(p), Get64(p[8..]), p[16..])) else Err(FrameError.Truncated))
    else if tag == 8 then (if |p| >= 8 then Ok(Delta(Get64(p), p[8..])) else Err(FrameError.Truncated))
    else (if p == [] then Ok(ResyncRequest) else Err(FrameError.Truncated))
  }

  /** The long form of an attach has no way to name session 0. */
  predicate Ambiguous(f: Frame) {
    f.Attach? && f.sessionId == Some(0) && Extra(f.protocol, f.observe)
  }

  function Arriving(f: Frame): Frame {
    if Ambiguous(f) then f.(sessionId := None) else f
  }

  lemma AttachSurvives(g: u64, id: Option<u64>, protocol: u8, observe: bool)
    ensures DecodeAttach(AttachPayload(g, id, protocol, observe)) == Ok(Arriving(Attach(g, id, protocol, observe)))
  {
    var p := AttachPayload(g, id, protocol, observe);
    var middle := if id.Some? then Put64(id.value) else if Extra(protocol, observe) then Put64(0) else [];
    var tail: seq<u8> := if Extra(protocol, observe) then [protocol, if observe then 1 else 0] else [];
    assert p == Put64(g) + (middle + tail);
    Get64Put(g, middle + tail);
    hide Get64, Put64;
    if middle != [] {
      var raw := if id.Some? then id.value else 0;
      assert p[8..] == Put64(raw) + tail;
      assert p[8..16] == Put64(raw) + [];
      Get64Put(raw, tail);
      Get64Put(raw, []);
    }
  }

  lemma ResizeSurvives(c: u16, r: u16, w: u16, h: u16)
    ensures Decode(3, Put16(c) + Put16(r) + Put16(w) + Put16(h)) == Ok(Resize(c, r, w, h))
  {
  }

  /** Every frame decodes to itself, except that an 18-byte attach to session 0
      arrives as an attach to the default leaf. */
  lemma RoundTrip(f: Frame)
    ensures Decode(TagOf(f), Payload(f)) == Ok(Arriving(f))
    ensures Decode(TagOf(f), Payload(f)) == Ok(f) <==> !Ambiguous(f)
  {
    match f
    case Data(_) =>
    case Credit(n) =>
      Get32Put(n, []);
      assert Put32(n) + [] == Put32(n);
    case Resize(c, r, w, h) => ResizeSurvives(c, r, w, h);
    case Exit(s) =>
      Get32Put(Unsigned(s), []);
      assert Put32(Unsigned(s)) + [] == Put32(Unsigned(s));
    case Attach(g, id, p, o) => AttachSurvives(g, id, p, o);
    case Refused(_) =>
    case Checkpoint(e, h, b) => CheckpointSurvives(e, h, b);
    case Delta(s, b) => DeltaSurvives(s, b);
    case ResyncRequest =>
    hide Get64, Put64, Get32, Put32, DecodeAttach, AttachPayload;
  }

  /** An observer that asks for session 0 by name is taken to ask for the
      default leaf. */
  lemma SessionZeroArrives(generation: u64, protocol: u8)
    ensures var f := Attach(generation, Some(0), protocol, true);
            Encode(f).Ok? && Decode(TagOf(f), Payload(f)) == Ok(Attach(generation, None, protocol, true))
  {
    var f := Attach(generation, Some(0), protocol, true);
    RoundTrip(f);
    assert |Payload(f)| == 18;
    hide Decode;
  }

  lemma CheckpointSurvives(e: u64, h: u64, b: seq<u8>)
    ensures Decode(7, Put64(e) + Put64(h) + b) == Ok(Checkpoint(e, h, b))
  {
    var p := Put64(e) + Put64(h) + b;
    Get64Put(e, Put64(h) + b);
    Get64Put(h, b);
    hide Get64, Put64;
    assert p == Put64(e) + (Put64(h) + b);
    assert p[8..] == Put64(h) + b;
  }

  lemma DeltaSurvives(s: u64, b: seq<u8>)
    ensures Decode(8, Put64(s) + b) == Ok(Delta(s, b))
  {
    Get64Put(s, b);
    hide Get64, Put64;
  }

  // ---------------------------------------------------------------- the stream

  /** What is left of a buffer once every whole frame was taken off its front,
      or the first error. */
  datatype Drained = Drained(frames: seq<Frame>, rest: seq<u8>, error: Option<FrameError>)

  function Length(buf: seq<u8>): u32
    requires |buf| >= 5
  {
    Get32(buf[1..5])
  }

  function Drain(buf: seq<u8>): (d: Drained)
    ensures d.error.None? ==> |d.rest| < MAX_FRAME + 5
    decreases |buf|
  {
    match Next(buf)
    case Wait => Drained([], buf, None)
    case Bad(e, rest) => Drained([], rest, Some(e))
    case Whole(f, rest) => Before(f, Drain(rest))
  }

  function Before(f: Frame, d: Drained): Drained {
    d.(frames := [f] + d.frames)
  }

  datatype Front = Wait | Bad(error: FrameError, left: seq<u8>) | Whole(frame: Frame, rest: seq<u8>)

  /** What the front of a buffer is. */
  function Next(buf: seq<u8>): (r: Front)
    ensures r.Wait? ==> |buf| < MAX_FRAME + 5
    ensures r.Whole? ==> |r.rest| < |buf|
  {
    if |buf| < 5 then Wait
    else if !(1 <= buf[0] <= 9) then Bad(UnknownTag(buf[0]), buf)
    else
      var n: int := Length(buf);
      if n > MAX_FRAME then Bad(TooLarge(n), buf)
      else if |buf| < 5 + n then Wait
      else
        match Decode(buf[0], buf[5..5 + n])
        case Err(e) => Bad(e, buf[5 + n..])
        case Ok(f) => Whole(f, buf[5 + n..])
  }

  /** The incremental decoder. */
  class Decoder {
    var buf: seq<u8>

    constructor ()
      ensures buf == []
    {
      buf := [];
    }

    /** A frame that fails to decode is taken off the buffer; a bad tag or
        length is not, so every later push fails with it again. The frames
        before an error in the same push are lost. */
    method Push(bytes: seq<u8>) returns (r: Result<seq<Frame>>)
      modifies this
      ensures var d := Drain(old(buf) + bytes);
              buf == d.rest && r == if d.error.Some? then Err(d.error.value) else Ok(d.frames)
      ensures r.Ok? ==> |buf| < MAX_FRAME + 5
    {
      hide Decode, Length;
      buf := buf + bytes;
      ghost var whole := Drain(buf);
      var frames := [];
      while true
        invariant whole == After(frames, Drain(buf))
        decreases |buf|
      {
        if |buf| < 5 {
          break;
        }
        var tag := buf[0];
        if !(1 <= tag <= 9) {
          return Err(UnknownTag(tag));
        }
        var len: int := Length(buf);
        if len > MAX_FRAME {
          return Err(TooLarge(len));
        }
        if |buf| < 5 + len {
          // The source fails closed here beyond MAX_FRAME + 5 bytes, but a
          // buffer that long holds any frame whose length passed the check.
          if |buf| > MAX_FRAME + 5 {
            assert false;
          }
          break;
        }
        var f := Decode(tag, buf[5..5 + len]);
        buf := buf[5 + len..];
        if f.Err? {
          return Err(f.error);
        }
        AfterBefore(frames, f.value, Drain(buf));
        frames := frames + [f.value];
      }
      assert Next(buf) == Wait && frames + [] == frames;
      return Ok(frames);
    }
  }

  function After(frames: seq<Frame>, d: Drained): Drained {
    d.(frames := frames + d.frames)
  }

  lemma AfterBefore(frames: seq<Frame>, f: Frame, d: Drained)
    ensures After(frames, Before(f, d)) == After(frames + [f], d)
  {
    assert frames + ([f] + d.frames) == frames + [f] + d.frames;
  }

  lemma NextMore(a: seq<u8>, b: seq<u8>)
    ensures Next(a).Whole? ==> Next(a + b) == Whole(Next(a).frame, Next(a).rest + b)
    ensures Next(a).Bad? ==> Next(a + b) == Bad(Next(a).error, Next(a).left + b)
  {
    if |a| >= 5 {
      assert (a + b)[1..5] == a[1..5];
      var n: int := Length(a);
      if 1 <= a[0] <= 9 && n <= MAX_FRAME && |a| >= 5 + n {
        assert (a + b)[5..5 + n] == a[5..5 + n];
        assert (a + b)[5 + n..] == a[5 + n..] + b;
      }
    }
    hide Decode;
  }

  /** Whole frames at the front of a buffer are not changed by what follows. */
  lemma {:induction false} DrainMore(a: seq<u8>, b: seq<u8>)
    ensures var d := Drain(a);
            var e := Drain(d.rest + b);
            Drain(a + b) == More(d, e, b)
    decreases |a|
  {
    NextMore(a, b);
    hide Next;
    if Next(a).Whole? {
      var f, rest := Next(a).frame, Next(a).rest;
      DrainMore(rest, b);
      BeforeMore(f, Drain(rest), Drain(Drain(rest).rest + b));
    } else if Next(a).Wait? {
      NoneBefore(Drain(a + b));
    }
  }

  /** A run of frames, then more of the stream. */
  function More(d: Drained, e: Drained, b: seq<u8>): Drained {
    if d.error.Some? then Drained(d.frames, d.rest + b, d.error) else Drained(d.frames + e.frames, e.rest, e.error)
  }

  lemma BeforeMore(f: Frame, d: Drained, e: Drained)
    ensures forall b :: Before(f, More(d, e, b)) == More(Before(f, d), e, b)
  {
    assert [f] + (d.frames + e.frames) == [f] + d.frames + e.frames;
  }

  lemma NoneBefore(e: Drained)
    ensures [] + e.frames == e.frames
  {
  }

  function Concat(chunks: seq<seq<u8>>): seq<u8> {
    if chunks == [] then [] else chunks[0] + Concat(chunks[1..])
  }

  /** A run of pushes up to the first that fails. */
  function PushAll(buf: seq<u8>, chunks: seq<seq<u8>>): (d: Drained)
    decreases |chunks|
  {
    if chunks == [] then Drained([], buf, None)
    else
      var d := Drain(buf + chunks[0]);
      if d.error.Some? then d.(frames := [])
      else
        var e := PushAll(d.rest, chunks[1..]);
        e.(frames := d.frames + e.frames)
  }

  lemma DrainRest(buf: seq<u8>)
    requires Drain(buf).error.None?
    ensures Drain(Drain(buf).rest) == Drained([], Drain(buf).rest, None)
  {
    DrainMore(buf, []);
    assert buf + [] == buf;
    var d := Drain(buf);
    var e := Drain(d.rest);
    assert d.rest + [] == d.rest;
    assert |d.frames + e.frames| == |d.frames|;
  }

  /** However a stream is cut, the pushes all succeed exactly when the whole
      stream parses, and then yield exactly its frames and keep exactly its
      unfinished end. */
  lemma {:induction false} AnyCut(buf: seq<u8>, chunks: seq<seq<u8>>)
    requires Drain(buf) == Drained([], buf, None)
    ensures PushAll(buf, chunks).error.None? <==> Drain(buf + Concat(chunks)).error.None?
    ensures PushAll(buf, chunks).error.None? ==> PushAll(buf, chunks) == Drain(buf + Concat(chunks))
    decreases |chunks|
  {
    if chunks == [] {
      assert buf + [] == buf;
    } else {
      var head, tail := chunks[0], Concat(chunks[1..]);
      assert buf + Concat(chunks) == buf + head + tail;
      DrainMore(buf + head, tail);
      var d := Drain(buf + head);
      if d.error.None? {
        DrainRest(buf + head);
        AnyCut(d.rest, chunks[1..]);
      }
    }
  }

  // ---------------------------------------------------------------- frames in, frames out

  /** Frames that encode. */
  predicate Encodable(fs: seq<Frame>) {
    forall i :: 0 <= i < |fs| ==> |Payload(fs[i])| <= MAX_FRAME
  }

  function Wire(fs: seq<Frame>): seq<u8>
    requires Encodable(fs)
  {
    if fs == [] then [] else Encode(fs[0]).value + Wire(fs[1..])
  }

  function AllArriving(fs: seq<Frame>): (r: seq<Frame>)
    ensures |r| == |fs|
  {
    seq(|fs|, i requires 0 <= i < |fs| => Arriving(fs[i]))
  }

  lemma DrainOne(f: Frame, rest: seq<u8>)
    requires |Payload(f)| <= MAX_FRAME
    ensures var d := Drain(rest);
            Drain(Encode(f).value + rest) == d.(frames := [Arriving(f)] + d.frames)
  {
    var p := Payload(f);
    var s := Encode(f).value + rest;
    assert s[1..5] == Put32(|p|) + [];
    Get32Put(|p|, []);
    assert s[5..5 + |p|] == p;
    assert s[5 + |p|..] == rest;
    RoundTrip(f);
    hide Decode, Payload, Put32, Get32;
  }

  lemma {:induction false} DrainWire(fs: seq<Frame>)
    requires Encodable(fs)
    ensures Drain(Wire(fs)) == Drained(AllArriving(fs), [], None)
  {
    DrainNothing();
    hide Drain, Encode, Payload, Arriving;
    if fs == [] {
      assert AllArriving(fs) == [];
    } else {
      DrainWire(fs[1..]);
      DrainOne(fs[0], Wire(fs[1..]));
      assert AllArriving(fs) == [Arriving(fs[0])] + AllArriving(fs[1..]);
    }
  }

  lemma DrainNothing()
    ensures Drain([]) == Drained([], [], None)
  {
  }

  lemma ArrivingSame(fs: seq<Frame>)
    ensures AllArriving(fs) == fs <==> forall i :: 0 <= i < |fs| ==> !Ambiguous(fs[i])
  {
    var got := AllArriving(fs);
    assert forall i :: 0 <= i < |fs| ==> (got[i] == fs[i] <==> !Ambiguous(fs[i]));
  }

  /** Every list of frames that encode is put together again from every
      cutting of its bytes; exactly when none of them is the ambiguous attach
      is it the list that was sent. */
  lemma Reassembly(fs: seq<Frame>, chunks: seq<seq<u8>>)
    requires Encodable(fs) && Concat(chunks) == Wire(fs)
    ensures PushAll([], chunks) == Drained(AllArriving(fs), [], None)
    ensures PushAll([], chunks).frames == fs <==> forall i :: 0 <= i < |fs| ==> !Ambiguous(fs[i])
  {
    DrainWire(fs);
    AnyCut([], chunks);
    assert [] + Wire(fs) == Wire(fs);
    ArrivingSame(fs);
    hide PushAll, Drain, AllArriving, Ambiguous;
  }

  lemma {:induction false} WirePush(fs: seq<Frame>, f: Frame)
    requires Encodable(fs) && |Payload(f)| <= MAX_FRAME
    ensures Encodable(fs + [f]) && Wire(fs + [f]) == Wire(fs) + Encode(f).value
    decreases |fs|
  {
    hide Payload;
    if fs == [] {
      assert [f][1..] == [];
    } else {
      WirePush(fs[1..], f);
      assert (fs + [f])[1..] == fs[1..] + [f];
    }
  }

  /** Whatever part of the wire has been read so far, however it was cut, the
      frames put together are the first of those sent. */
  lemma PartRead(fs: seq<Frame>, read: seq<u8>, left: seq<u8>, chunks: seq<seq<u8>>)
    requires Encodable(fs) && read + left == Wire(fs) && Concat(chunks) == read
    ensures var d := PushAll([], chunks);
            d.error.None? && d.frames <= AllArriving(fs) && (left == [] ==> d.frames == AllArriving(fs))
  {
    DrainWire(fs);
    DrainMore(read, left);
    DrainNothing();
    AnyCut([], chunks);
    assert [] + read == read;
    hide Drain, PushAll, AllArriving;
    if left == [] {
      assert read + left == read;
    }
  }
}
