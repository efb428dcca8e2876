/** The byte parser as a function: one byte takes a parser state to the next
    one and to the actions it performs on the screen. */
module ParserSpec {
  import opened VtTypes
  import opened Utf8

  const MAX_PARAMS := 32
  const MAX_INTER := 2
  const MAX_OSC := 1024
  const MAX_UTF8 := 4

  datatype State =
    | Ground | Escape | EscapeIntermediate
    | CsiEntry | CsiParam | CsiIntermediate | CsiIgnore
    | OscString | OscEscape | DcsPassthrough | DcsEscape | SosPmApc | SosEscape

  /** `utf8` holds the bytes collected of a sequence of `needed` bytes. */
  datatype Parser = Parser(
    state: State,
    params: seq<u16>,
    acc: u32,
    inters: seq<u8>,
    ignore: bool,
    osc: seq<u8>,
    utf8: seq<u8>,
    needed: u8,
    putback: Option<u8>)

  datatype Out = Out(p: Parser, acts: seq<Action>)

  const NEW := Parser(Ground, [], 0, [], false, [], [], 0, None)

  /** The bounds of every fixed-size buffer, and when bytes may be pending. */
  predicate Wf(p: Parser) {
    && |p.params| <= MAX_PARAMS
    && |p.inters| <= MAX_INTER
    && |p.osc| <= MAX_OSC
    && p.acc <= 0xFFFF
    && (p.needed == 0 ==> p.utf8 == [])
    && (p.needed > 0 ==>
          && p.state == Ground
          && 1 <= |p.utf8| < p.needed <= MAX_UTF8
          && PendingUtf8(p.utf8, p.needed))
    && (p.putback.Some? ==> p.needed == 0 && (p.state == Ground || p.state == Escape))
  }

  predicate Settled(p: Parser) {
    Wf(p) && p.putback.None?
  }

  predicate IsIdle(p: Parser) {
    p.state == Ground && |p.utf8| == 0 && p.putback.None?
  }

  function ResetSeq(p: Parser): Parser {
    p.(params := [], acc := 0, inters := [], ignore := false, osc := [])
  }

  predicate IsC0(b: u8) {
    b <= 0x17 || b == 0x19 || 0x1c <= b <= 0x1f
  }

  predicate IsCancel(b: u8) {
    b == 0x18 || b == 0x1a
  }

  function PushInter(p: Parser, b: u8): Parser {
    if |p.inters| < MAX_INTER then p.(inters := p.inters + [b]) else p.(ignore := true)
  }

  function PushDigit(p: Parser, b: u8): Parser
    requires 0x30 <= b <= 0x39
    requires p.acc <= 0xFFFF
  {
    p.(acc := Min(p.acc * 10 + (b - 0x30), 0xFFFF))
  }

  function FinishParam(p: Parser): Parser {
    (if |p.params| < MAX_PARAMS then p.(params := p.params + [Min(p.acc, 0xFFFF)])
     else p.(ignore := true)).(acc := 0)
  }

  function PushOsc(p: Parser, b: u8): Parser {
    if |p.osc| < MAX_OSC then p.(osc := p.osc + [b]) else p.(ignore := true)
  }

  function Goto(p: Parser, s: State): Out {
    Out(p.(state := s), [])
  }

  /** A continuation byte of the pending sequence. */
  function ContinueUtf8(p: Parser, b: u8): (o: Out)
    requires Settled(p) && p.needed > 0 && IsTailByte(b)
    ensures Settled(o.p)
  {
    var q := p.(utf8 := p.utf8 + [b]);
    if |q.utf8| == q.needed then
      var c := Decode(q.utf8);
      Out(q.(utf8 := [], needed := 0), [Print(if c.Some? then c.value else REPLACEMENT)])
    else Out(q, [])
  }

  function StartUtf8(p: Parser, b: u8): (q: Parser)
    requires Settled(p) && p.state == Ground && LeadLength(b) > 0
    ensures Settled(q)
  {
    p.(utf8 := [b], needed := LeadLength(b))
  }

  function GroundStep(p: Parser, b: u8): (o: Out)
    requires Settled(p) && p.state == Ground
    ensures Wf(o.p)
    ensures o.p.putback.Some? ==> p.needed > 0 && o.p.state == Ground && o.p.putback.value == b
  {
    if p.needed > 0 then
      if IsTailByte(b) then ContinueUtf8(p, b)
      else Out(p.(utf8 := [], needed := 0, putback := Some(b)), [Print(REPLACEMENT)])
    else if IsC0(b) then Out(p, [Execute(b)])
    else if IsCancel(b) then Out(ResetSeq(p), [Execute(b)])
    else if b == 0x1b then Goto(ResetSeq(p), Escape)
    else if 0x20 <= b <= 0x7e then Out(p, [Print(b)])
    else if b == 0x7f then Out(p, [])
    else if LeadLength(b) > 0 then Out(StartUtf8(p, b), [])
    else Out(p, [Print(REPLACEMENT)])
  }

  /** In Ground with nothing pending, what neither controls nor leads prints. */
  lemma TextActs(p: Parser, b: u8)
    requires Settled(p) && p.state == Ground && p.needed == 0 && b >= 0x20 && LeadLength(b) == 0
    ensures GroundStep(p, b) == Out(p, if b == 0x7f then [] else [Print(if b < 0x7f then b else REPLACEMENT)])
  {
  }

  /** Bytes that act the same inside every escape and control sequence: C0
      controls execute, CAN and SUB abort, ESC starts over. */
  predicate IsCommon(b: u8) {
    IsC0(b) || IsCancel(b) || b == 0x1b
  }

  function CommonStep(p: Parser, b: u8): (o: Out)
    requires Settled(p) && p.needed == 0 && IsCommon(b)
    ensures Settled(o.p)
  {
    if IsC0(b) then Out(p, [Execute(b)])
    else if IsCancel(b) then Out(p.(state := Ground), [Execute(b)])
    else Goto(ResetSeq(p), Escape)
  }

  /** A byte that ends an escape sequence right after ESC. */
  predicate IsEscFinal(b: u8) {
    0x30 <= b <= 0x7e && b !in {0x50, 0x58, 0x5b, 0x5d, 0x5e, 0x5f}
  }

  function DispatchEsc(p: Parser, b: u8): (o: Out)
    requires Settled(p) && p.needed == 0
    ensures Settled(o.p)
  {
    Out(ResetSeq(p.(state := Ground)), [Esc(p.inters, b)])
  }

  function EscapeOwn(p: Parser, b: u8): (q: Parser)
    requires Settled(p) && p.needed == 0
    ensures Settled(q)
  {
    if 0x20 <= b <= 0x2f then PushInter(p, b).(state := EscapeIntermediate)
    else if b == 0x50 then ResetSeq(p).(state := DcsPassthrough)
    else if b == 0x58 || b == 0x5e || b == 0x5f then ResetSeq(p).(state := SosPmApc)
    else if b == 0x5b then ResetSeq(p).(state := CsiEntry)
    else if b == 0x5d then ResetSeq(p).(state := OscString)
    else if b == 0x7f then p
    else ResetSeq(p).(state := Ground)
  }

  function EscapeIntermediateOwn(p: Parser, b: u8): (q: Parser)
    requires Settled(p) && p.needed == 0
    ensures Settled(q)
  {
    if 0x20 <= b <= 0x2f then PushInter(p, b) else ResetSeq(p).(state := Ground)
  }

  function DispatchCsi(p: Parser, b: u8): (o: Out)
    requires Settled(p) && p.needed == 0
    ensures Settled(o.p)
  {
    Out(ResetSeq(p.(state := Ground)), [Csi(p.params, p.inters, p.ignore, b)])
  }

  predicate IsCsiFinal(b: u8) {
    0x40 <= b <= 0x7e
  }

  function CsiEntryOwn(p: Parser, b: u8): (q: Parser)
    requires Settled(p) && p.needed == 0
    ensures Settled(q)
  {
    if 0x20 <= b <= 0x2f then PushInter(p, b).(state := CsiIntermediate)
    else if 0x30 <= b <= 0x39 then PushDigit(p, b).(state := CsiParam)
    else if b == 0x3a || b == 0x3b then FinishParam(p).(state := CsiParam)
    else if 0x3c <= b <= 0x3f then PushInter(p, b).(state := CsiParam)
    else if b == 0x7f then p
    else p.(ignore := true, state := CsiParam)
  }

  function CsiParamOwn(p: Parser, b: u8): (q: Parser)
    requires Settled(p) && p.needed == 0
    ensures Settled(q)
  {
    if 0x20 <= b <= 0x2f then PushInter(FinishParam(p), b).(state := CsiIntermediate)
    else if 0x30 <= b <= 0x39 then PushDigit(p, b)
    else if b == 0x3a || b == 0x3b then FinishParam(p)
    else if 0x3c <= b <= 0x3f then p.(state := CsiIgnore)
    else if b == 0x7f then p
    else p.(ignore := true)
  }

  function CsiIntermediateOwn(p: Parser, b: u8): (q: Parser)
    requires Settled(p) && p.needed == 0
    ensures Settled(q)
  {
    if 0x20 <= b <= 0x2f then PushInter(p, b)
    else if 0x30 <= b <= 0x3f then p.(state := CsiIgnore)
    else p.(ignore := true, state := CsiIgnore)
  }

  function CsiIgnoreOwn(p: Parser, b: u8): (q: Parser)
    requires Settled(p) && p.needed == 0
    ensures Settled(q)
  {
    if IsCsiFinal(b) then ResetSeq(p).(state := Ground) else p
  }

  /** One byte inside an escape or control sequence. */
  function SequenceStep(p: Parser, b: u8): (o: Out)
    requires Settled(p) && InSequence(p.state)
    ensures Settled(o.p)
  {
    if IsCommon(b) then CommonStep(p, b)
    else
      var s := p.state;
      if s == Escape then (if IsEscFinal(b) then DispatchEsc(p, b) else Out(EscapeOwn(p, b), []))
      else if s == EscapeIntermediate then
        (if 0x30 <= b <= 0x7e then DispatchEsc(p, b) else Out(EscapeIntermediateOwn(p, b), []))
      else if s == CsiEntry then (if IsCsiFinal(b) then DispatchCsi(p, b) else Out(CsiEntryOwn(p, b), []))
      else if s == CsiParam then
        (if IsCsiFinal(b) then DispatchCsi(FinishParam(p), b) else Out(CsiParamOwn(p, b), []))
      else if s == CsiIntermediate then
        (if IsCsiFinal(b) then DispatchCsi(p, b) else Out(CsiIntermediateOwn(p, b), []))
      else Out(CsiIgnoreOwn(p, b), [])
  }

  predicate InSequence(s: State) {
    s in {Escape, EscapeIntermediate, CsiEntry, CsiParam, CsiIntermediate, CsiIgnore}
  }

  function OscStringStep(p: Parser, b: u8): (o: Out)
    requires Settled(p) && p.needed == 0
    ensures Settled(o.p)
  {
    if b == 0x07 then Out(ResetSeq(p.(state := Ground)), [Osc(p.osc)])
    else if b == 0x1b then Goto(p, OscEscape)
    else if IsCancel(b) then Out(ResetSeq(p.(state := Ground)), [Execute(b)])
    else Out(PushOsc(p, b), [])
  }

  /** ESC inside a string: `\` ends it, anything else starts a new escape
      sequence and is read again. */
  function StringEscapeStep(p: Parser, b: u8, closing: seq<Action>): (o: Out)
    requires Settled(p) && p.needed == 0
    ensures Wf(o.p)
    ensures o.p.putback.Some? ==> o.p.state == Escape && o.p.putback.value == b
  {
    if b == 0x5c then Out(ResetSeq(p.(state := Ground)), closing)
    else Out(ResetSeq(p.(state := Escape, putback := Some(b))), [])
  }

  function DcsStep(p: Parser, b: u8): (o: Out)
    requires Settled(p) && p.needed == 0
    ensures Settled(o.p)
  {
    if b == 0x1b then Goto(p, DcsEscape)
    else if IsCancel(b) then Out(ResetSeq(p.(state := Ground)), [Execute(b)])
    else Out(p, [])
  }

  function SosStep(p: Parser, b: u8): (o: Out)
    requires Settled(p) && p.needed == 0
    ensures Settled(o.p)
  {
    if b == 0x1b then Goto(p, SosEscape)
    else if IsCancel(b) then Goto(ResetSeq(p), Ground)
    else Out(p, [])
  }

  /** One byte of an OSC, DCS, SOS, PM or APC string. */
  function StringStep(p: Parser, b: u8): (o: Out)
    requires Settled(p) && p.needed == 0
    ensures Wf(o.p)
    ensures o.p.putback.Some? ==> p.state != Ground && !InSequence(p.state)
    ensures o.p.putback.Some? ==> o.p.state == Escape && o.p.putback.value == b
  {
    var s := p.state;
    if s == OscString then OscStringStep(p, b)
    else if s == DcsPassthrough then DcsStep(p, b)
    else if s == SosPmApc then SosStep(p, b)
    else if s == OscEscape then StringEscapeStep(p, b, [Osc(p.osc)])
    else if s == DcsEscape || s == SosEscape then StringEscapeStep(p, b, [])
    else Out(p, [])
  }

  function Dispatch(p: Parser, b: u8): (o: Out)
    requires Settled(p)
  {
    if p.state == Ground then GroundStep(p, b)
    else if InSequence(p.state) then SequenceStep(p, b)
    else StringStep(p, b)
  }

  /** One `step`: the byte has been taken from the put-back slot or the input.
      A byte is put back only where reading it again cannot put it back. */
  function Step(p: Parser, b: u8): (o: Out)
    requires Settled(p)
    ensures Wf(o.p)
    ensures o.p.putback.Some? ==> p.needed > 0 || p.state in {OscEscape, DcsEscape, SosEscape}
    ensures o.p.putback.Some? ==> o.p.putback.value == b && o.p.needed == 0 && o.p.state in {Ground, Escape}
  {
    Dispatch(p, b)
  }

  /** One input byte, read again for as long as it is put back. */
  function Consume(p: Parser, b: u8): (o: Out)
    requires Settled(p)
    ensures Settled(o.p)
  {
    var first := Step(p, b);
    if first.p.putback.None? then first
    else
      var again := Step(first.p.(putback := None), b);
      Out(again.p, first.acts + again.acts)
  }

  function Run(p: Parser, bytes: seq<u8>): (o: Out)
    requires Settled(p)
    ensures Settled(o.p)
    decreases bytes
  {
    if bytes == [] then Out(p, [])
    else
      var first := Consume(p, bytes[0]);
      var rest := Run(first.p, bytes[1..]);
      Out(rest.p, first.acts + rest.acts)
  }

  /** The input from a state that may hold a byte put back. */
  function Resume(p: Parser, bytes: seq<u8>): (o: Out)
    requires Wf(p)
    ensures Settled(o.p)
  {
    if p.putback.None? then Run(p, bytes)
    else
      var first := Step(p.(putback := None), p.putback.value);
      var rest := Run(first.p, bytes);
      Out(rest.p, first.acts + rest.acts)
  }

  lemma ResumeSettled(p: Parser, bytes: seq<u8>)
    requires Settled(p)
    ensures Resume(p, bytes) == Run(p, bytes)
  {
  }

  lemma RunNothing(p: Parser)
    requires Settled(p)
    ensures Run(p, []) == Out(p, [])
  {
  }

  /** The byte put back is read without being put back again. */
  lemma ResumePutback(p: Parser, bytes: seq<u8>)
    requires Wf(p) && p.putback.Some?
    ensures var q := p.(putback := None);
            var first := Step(q, p.putback.value);
            var rest := Resume(first.p, bytes);
            Settled(first.p) && Resume(p, bytes) == Out(rest.p, first.acts + rest.acts)
  {
  }

  lemma ActsAssoc(a: seq<Action>, b: seq<Action>, c: seq<Action>)
    ensures a + b + c == a + (b + c)
  {
  }

  /** What one `step` leaves to do. */
  lemma RunIsStepThenResume(p: Parser, bytes: seq<u8>)
    requires Settled(p) && bytes != []
    ensures var first := Step(p, bytes[0]);
            var rest := Resume(first.p, bytes[1..]);
            Run(p, bytes) == Out(rest.p, first.acts + rest.acts)
  {
    var first := Step(p, bytes[0]);
    if first.p.putback.Some? {
      var again := Step(first.p.(putback := None), first.p.putback.value);
      var rest := Run(again.p, bytes[1..]);
      hide Step, Run, Wf;
      ActsAssoc(first.acts, again.acts, rest.acts);
    }
  }

  /** Cutting the stream anywhere changes neither the state reached nor the
      actions performed. */
  lemma {:induction false} RunAppend(p: Parser, a: seq<u8>, b: seq<u8>)
    requires Settled(p)
    ensures var first := Run(p, a);
            var rest := Run(first.p, b);
            Run(p, a + b) == Out(rest.p, first.acts + rest.acts)
    decreases a
  {
    hide Wf, Consume;
    if a == [] {
      assert [] + b == b;
    } else {
      var first := Consume(p, a[0]);
      RunAppend(first.p, a[1..], b);
      assert (a + b)[1..] == a[1..] + b;
      var mid := Run(first.p, a[1..]);
      var rest := Run(mid.p, b);
      ActsAssoc(first.acts, mid.acts, rest.acts);
    }
  }
}
