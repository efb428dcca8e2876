/** Byte by byte, what frames and checkpoints look like to whoever reads them
    without this code. */
module WireLaws {
  import opened VtTypes
  import opened Bytes
  import opened Attach
  import K = Checkpoint
  import F = Fnv
  import S = ScreenSpec

  /** The number that bytes denote, the least significant first. */
  function Little(s: seq<u8>): nat {
    if s == [] then 0 else s[0] + 256 * Little(s[1..])
  }

  lemma {:induction false} LittleSplit(a: seq<u8>, b: seq<u8>)
    ensures Little(a + b) == Little(a) + Weight(|a|) * Little(b)
    decreases |a|
  {
    if a == [] {
      assert a + b == b;
    } else {
      assert (a + b)[1..] == a[1..] + b;
      LittleSplit(a[1..], b);
      assert 256 * (Weight(|a| - 1) * Little(b)) == Weight(|a|) * Little(b);
    }
  }

  function Weight(n: nat): nat {
    if n == 0 then 1 else 256 * Weight(n - 1)
  }

  lemma PutsLittle(a: u16, b: u32, c: u64)
    ensures Little(Put16(a)) == a && Little(Put32(b)) == b && Little(Put64(c)) == c
  {
    Little16(a);
    Little32(b);
    Little32(c % 0x1_0000_0000);
    Little32(c / 0x1_0000_0000);
    LittleSplit(Put32(c % 0x1_0000_0000), Put32(c / 0x1_0000_0000));
    assert Weight(4) == 0x1_0000_0000;
    hide Put32, Little;
  }

  lemma Little16(a: u16)
    ensures Little(Put16(a)) == a
  {
    var s := Put16(a);
    assert s[1..] == [a / 256] && s[1..][1..] == [];
    assert Little(s[1..]) == a / 256;
  }

  lemma Little32(b: u32)
    ensures Little(Put32(b)) == b
  {
    Little16(b % 0x1_0000);
    Little16(b / 0x1_0000);
    LittleSplit(Put16(b % 0x1_0000), Put16(b / 0x1_0000));
    assert Weight(2) == 0x1_0000;
    hide Put16, Little;
  }

  // ---------------------------------------------------------------- frames

  /** The tag a frame begins with. */
  function Number(f: Frame): u8 {
    if f.Data? then 1 else if f.Credit? then 2 else if f.Resize? then 3 else if f.Exit? then 4
    else if f.Attach? then 5 else if f.Refused? then 6 else if f.Checkpoint? then 7 else if f.Delta? then 8 else 9
  }

  /** The payload, field by field: numbers little-endian, bytes as they are. */
  ghost predicate Carries(p: seq<u8>, f: Frame) {
    match f
    case Data(b) => p == b
    case Credit(n) => |p| == 4 && Little(p) == n
    case Resize(c, r, w, h) =>
      |p| == 8 && Little(p[..2]) == c && Little(p[2..4]) == r && Little(p[4..6]) == w && Little(p[6..]) == h
    case Exit(n) => |p| == 4 && Little(p) == if n >= 0 then n else n + 0x1_0000_0000
    case Attach(g, id, protocol, observe) =>
      var long := protocol != 1 || observe;
      && |p| == (if long then 18 else if id.Some? then 16 else 8) && Little(p[..8]) == g
      && (|p| >= 16 ==> Little(p[8..16]) == if id.Some? then id.value else 0)
      && (long ==> p[16] == protocol && p[17] == if observe then 1 else 0)
    case Refused(r) => p == [if r.AlreadyAttached? then 1 else if r.Invalid? then 2 else 3]
    case Checkpoint(e, h, b) => |p| >= 16 && Little(p[..8]) == e && Little(p[8..16]) == h && p[16..] == b
    case Delta(s, b) => |p| >= 8 && Little(p[..8]) == s && p[8..] == b
    case ResyncRequest => p == []
  }

  lemma ResizeCarries(c: u16, r: u16, w: u16, h: u16)
    ensures Carries(Payload(Resize(c, r, w, h)), Resize(c, r, w, h))
  {
    PutsLittle(c, 0, 0);
    PutsLittle(r, 0, 0);
    PutsLittle(w, 0, 0);
    PutsLittle(h, 0, 0);
    hide Put16, Little;
    var p := Payload(Resize(c, r, w, h));
    assert p[..2] == Put16(c) && p[2..4] == Put16(r) && p[4..6] == Put16(w) && p[6..] == Put16(h);
  }

  lemma CheckpointCarries(e: u64, h: u64, b: seq<u8>)
    ensures Carries(Payload(Frame.Checkpoint(e, h, b)), Frame.Checkpoint(e, h, b))
  {
    PutsLittle(0, 0, e);
    PutsLittle(0, 0, h);
    hide Put64, Little;
    var p := Payload(Frame.Checkpoint(e, h, b));
    assert p[..8] == Put64(e) && p[8..16] == Put64(h) && p[16..] == b;
  }

  lemma PayloadCarries(f: Frame)
    ensures Carries(Payload(f), f)
  {
    match f
    case Data(_) =>
    case Credit(n) => PutsLittle(0, n, 0); hide Put32, Little;
    case Resize(c, r, w, h) => ResizeCarries(c, r, w, h);
    case Exit(n) => PutsLittle(0, Unsigned(n), 0); hide Put32, Little;
    case Attach(g, id, protocol, observe) =>
      PutsLittle(0, 0, g);
      PutsLittle(0, 0, if id.Some? then id.value else 0);
      hide Put64, Little;
      var p := Payload(f);
      assert p[..8] == Put64(g);
      if |p| >= 16 {
        assert p[8..16] == Put64(if id.Some? then id.value else 0);
      }
    case Refused(_) =>
    case Checkpoint(e, h, b) => CheckpointCarries(e, h, b);
    case Delta(s, b) =>
      PutsLittle(0, 0, s);
      hide Put64, Little;
      var p := Payload(f);
      assert p[..8] == Put64(s) && p[8..] == b;
    case ResyncRequest =>
  }

  /** A frame is its tag, the length of its payload in four bytes, and the
      payload; none is made of more than 4 MiB. */
  lemma FrameIsLaidOut(f: Frame)
    ensures Encode(f).Ok? <==> |Payload(f)| <= 4 * 1024 * 1024
    ensures Encode(f).Ok? ==>
              var e := Encode(f).value;
              |e| >= 5 && e[0] == Number(f) && Little(e[1..5]) == |e| - 5 && Carries(e[5..], f)
  {
    PayloadCarries(f);
    if Encode(f).Ok? {
      var p, e := Payload(f), Encode(f).value;
      PutsLittle(0, |p|, 0);
      hide Payload, Carries, Put32, Little;
      assert e[1..5] == Put32(|p|) && e[5..] == p;
    }
  }

  /** The payloads a tag can come with. */
  predicate Fits(tag: u8, p: seq<u8>) {
    if tag == 1 then true
    else if tag == 2 || tag == 4 then |p| == 4
    else if tag == 3 then |p| == 8
    else if tag == 5 then |p| in {8, 16, 18}
    else if tag == 6 then |p| == 1 && 1 <= p[0] <= 3
    else if tag == 7 then |p| >= 16
    else if tag == 8 then |p| >= 8
    else p == []
  }

  /** What a decoder makes of the front of its buffer: with less than a header,
      or less than the payload declared, it waits; a tag or a length no frame
      has stops it there for good; a payload that does not fit its tag is an
      error, and is passed over. */
  lemma FrontIs(buf: seq<u8>)
    ensures |buf| < 5 ==> Drain(buf) == Drained([], buf, None)
    ensures |buf| >= 5 && !(1 <= buf[0] <= 9) ==> Drain(buf) == Drained([], buf, Some(UnknownTag(buf[0])))
    ensures |buf| >= 5 && 1 <= buf[0] <= 9 ==>
              var n := Little(buf[1..5]);
              && (n > 4 * 1024 * 1024 ==> Drain(buf) == Drained([], buf, Some(TooLarge(n))))
              && (|buf| < 5 + n <= 5 + 4 * 1024 * 1024 ==> Drain(buf) == Drained([], buf, None))
              && (5 + n <= |buf| && n <= 4 * 1024 * 1024 ==>
                    var p, rest := buf[5..5 + n], buf[5 + n..];
                    if Fits(buf[0], p) then Drain(buf).frames != [] && Number(Drain(buf).frames[0]) == buf[0]
                    else Drain(buf) == Drained([], rest, Some(if buf[0] == 6 && |p| == 1 then UnknownRefuse(p[0])
                                                              else FrameError.Truncated)))
  {
    if |buf| >= 5 {
      GetLittle32(buf[1..5]);
      assert buf[1..5][..4] == buf[1..5];
      if 1 <= buf[0] <= 9 && 5 + Length(buf) <= |buf| && Length(buf) <= MAX_FRAME {
        DecodeFits(buf[0], buf[5..5 + Length(buf)]);
      }
    }
    hide Little, Get32, Decode, Fits, Number;
  }

  lemma DecodeFits(tag: u8, p: seq<u8>)
    requires 1 <= tag <= 9
    ensures Decode(tag, p).Ok? <==> Fits(tag, p)
    ensures Decode(tag, p).Ok? ==> Number(Decode(tag, p).value) == tag
    ensures Decode(tag, p).Err? ==>
              Decode(tag, p).error == if tag == 6 && |p| == 1 then UnknownRefuse(p[0]) else FrameError.Truncated
  {
    hide Get16, Get32, Get64;
  }

  // ---------------------------------------------------------------- checkpoints

  /** The part of the record that has a fixed size: columns and rows, the
      cursor's column and row, the margins, the pen's rendition, and twelve
      flags. */
  ghost predicate Begins(s: seq<u8>, c: S.Core) {
    && |s| >= 18
    && Little(s[..2]) == c.cols && Little(s[2..4]) == c.rows
    && Little(s[4..6]) == c.cursorCol && Little(s[6..8]) == c.cursorRow
    && Little(s[8..10]) == c.scrollTop && Little(s[10..12]) == c.scrollBottom
    && Little(s[12..14]) == c.pen.attrs
    && HasFlags(Little(s[14..18]), c)
  }

  /** A number halved `k` times; odd when its bit `k` is set. */
  function Halved(f: nat, k: nat): nat {
    if k == 0 then f else Halved(f / 2, k - 1)
  }

  /** Bit by bit from the lowest: pending wrap, autowrap, cursor visible,
      alternate screen, and the eight input modes. */
  predicate HasFlags(f: nat, c: S.Core) {
    && (Halved(f, 0) % 2 == 1 <==> c.pendingWrap) && (Halved(f, 1) % 2 == 1 <==> c.autowrap)
    && (Halved(f, 2) % 2 == 1 <==> c.cursorVisible) && (Halved(f, 3) % 2 == 1 <==> c.inAlt)
    && (Halved(f, 4) % 2 == 1 <==> c.modes.appCursorKeys) && (Halved(f, 5) % 2 == 1 <==> c.modes.appKeypad)
    && (Halved(f, 6) % 2 == 1 <==> c.modes.bracketedPaste) && (Halved(f, 7) % 2 == 1 <==> c.modes.mouseX10)
    && (Halved(f, 8) % 2 == 1 <==> c.modes.mouseButton) && (Halved(f, 9) % 2 == 1 <==> c.modes.mouseAny)
    && (Halved(f, 10) % 2 == 1 <==> c.modes.mouseSgr) && (Halved(f, 11) % 2 == 1 <==> c.modes.focusEvents)
  }

  lemma {:induction false} FlagIsBit(f: nat, k: nat)
    ensures K.Flag(f, k) <==> Halved(f, k) % 2 == 1
    decreases k
  {
    if k > 0 {
      FlagIsBit(f / 2, k - 1);
    }
  }

  /** An exported checkpoint begins with "R1CK", version 1, the offset it ends
      at and its FNV-1a hash; then comes the record. */
  lemma CheckpointIsLaidOut(c: S.Core, offset: u64)
    requires S.Wf(c)
    ensures var b := K.Export(c, offset);
            && |b| >= 22 && b[..4] == ['R' as int, '1' as int, 'C' as int, 'K' as int]
            && Little(b[4..6]) == 1 && Little(b[6..14]) == offset && Little(b[14..22]) == F.Digest(b, |b|)
            && Begins(b[22..], c)
  {
    hide F.Digest, Little, S.GridsOk, K.Import, K.PutRecord, K.WithHash, K.Unhashed, K.RecordOf, Begins;
    K.ImportExport(c, offset);
    K.SealedFields(K.RecordOf(c), offset);
    assert |K.Export(c, offset)| >= 22 && K.Export(c, offset)[22..] == K.PutRecord(K.RecordOf(c));
    hide K.Export, S.Wf;
    RecordBegins(c);
    ImportRefuses(K.Export(c, offset));
  }

  lemma RecordBegins(c: S.Core)
    requires S.Wf(c)
    ensures Begins(K.PutRecord(K.RecordOf(c)), c)
  {
    var r := K.RecordOf(c);
    FixedFields(r);
    PutsLittle(c.cols, K.CoreFlags(c), 0);
    PutsLittle(c.rows, 0, 0);
    PutsLittle(c.cursorCol, 0, 0);
    PutsLittle(c.cursorRow, 0, 0);
    PutsLittle(c.scrollTop, 0, 0);
    PutsLittle(c.scrollBottom, 0, 0);
    PutsLittle(c.pen.attrs, 0, 0);
    FlagsAre(c);
    hide Put16, Put32, Little, K.PutRecord, K.CoreFlags, HasFlags, S.GridsOk;
  }

  lemma FixedFields(r: K.Record)
    ensures var s, p := K.PutRecord(r), r.place;
            && |s| >= 18 && s[..2] == Put16(r.cols) && s[2..4] == Put16(r.rows)
            && s[4..6] == Put16(p.col) && s[6..8] == Put16(p.row) && s[8..10] == Put16(p.top)
            && s[10..12] == Put16(p.bottom) && s[12..14] == Put16(p.attrs) && s[14..18] == Put32(p.flags)
  {
    hide Put16, Put32, K.PutInk, K.PutCells, K.PutSavedGrid, K.PutPending;
  }

  lemma FlagsAre(c: S.Core)
    ensures HasFlags(K.CoreFlags(c), c)
  {
    K.FlagsRead(c);
    var f := K.CoreFlags(c);
    hide K.CoreFlags, K.Flag, Halved;
    forall k: nat | k < 12 ensures K.Flag(f, k) <==> Halved(f, k) % 2 == 1 {
      FlagIsBit(f, k);
    }
  }

  /** Why a blob is refused, in this order: too short for a header, the wrong
      magic, a version other than 1, a hash that is not the blob's own; only
      then is the record read, to the last byte. */
  lemma ImportRefuses(b: seq<u8>)
    ensures var r := K.Import(b);
            if |b| < 22 then r == K.Err(CodecError.Truncated)
            else if b[..4] != ['R' as int, '1' as int, 'C' as int, 'K' as int] then r == K.Err(BadMagic)
            else if Little(b[4..6]) != 1 then r == K.Err(BadVersion)
            else if Little(b[14..22]) != F.Digest(b, |b|) then r == K.Err(HashMismatch)
            else r.Ok? ==> r.value.0 == Little(b[6..14])
  {
    if |b| >= 22 {
      GetLittle16(b[4..]);
      GetLittle64(b[14..]);
      GetLittle64(b[6..]);
      assert b[4..][..2] == b[4..6] && b[14..][..8] == b[14..22] && b[6..][..8] == b[6..14];
    }
    hide F.Digest, Little, Get16, Get64, K.TakeRecord, K.CoreOf;
  }

  lemma GetLittle16(s: seq<u8>)
    requires |s| >= 2
    ensures Get16(s) == Little(s[..2])
  {
    var p := s[..2];
    assert p[1..] == [s[1]] && p[1..][1..] == [];
    assert Little(p[1..]) == s[1];
  }

  lemma GetLittle32(s: seq<u8>)
    requires |s| >= 4
    ensures Get32(s) == Little(s[..4])
  {
    GetLittle16(s);
    GetLittle16(s[2..]);
    LittleSplit(s[..2], s[2..4]);
    assert s[..4] == s[..2] + s[2..4] && s[2..][..2] == s[2..4];
    assert Weight(2) == 0x1_0000;
    hide Little;
  }

  lemma GetLittle64(s: seq<u8>)
    requires |s| >= 8
    ensures Get64(s) == Little(s[..8])
  {
    GetLittle32(s);
    GetLittle32(s[4..]);
    LittleSplit(s[..4], s[4..8]);
    assert s[..8] == s[..4] + s[4..8] && s[4..][..4] == s[4..8];
    assert Weight(4) == 0x1_0000_0000;
    hide Little, Get32;
  }
}
