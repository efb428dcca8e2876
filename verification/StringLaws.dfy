/** Strings, escape sequences and interruptions: what each is read as, from
    its first byte to its last, whatever an earlier sequence left behind. */
module StringLaws {
  import opened VtTypes
  import opened ParserSpec
  import opened Utf8
  import F = CsiFidelity

  /** The five kinds of string, by the byte after ESC. */
  predicate Opens(b: u8) {
    b in {0x5d, 0x50, 0x58, 0x5e, 0x5f}
  }

  const OSC: u8 := 0x5d
  const DCS: u8 := 0x50

  /** Bytes that end nothing inside such a string; only an OSC ends at BEL. */
  ghost predicate Payload(kind: u8, s: seq<u8>) {
    forall i :: 0 <= i < |s| ==> s[i] !in {0x18, 0x1a, 0x1b} && !(kind == OSC && s[i] == 0x07)
  }

  /** The parser inside a string. */
  function Inside(kind: u8, s: seq<u8>): (p: Parser)
    requires Opens(kind)
    ensures Settled(p) && p.needed == 0
  {
    if kind == OSC then Parser(OscString, [], 0, [], |s| > MAX_OSC, s[..Min(|s|, MAX_OSC)], [], 0, None)
    else NEW.(state := if kind == DCS then DcsPassthrough else SosPmApc)
  }

  lemma OpensString(p: Parser, kind: u8)
    requires Settled(p) && p.state == Ground && p.needed == 0 && Opens(kind)
    ensures Run(p, [0x1b, kind]) == Out(Inside(kind, []), [])
  {
    F.RunEsc(p);
    OpenByte(kind);
    hide Run, Wf, Inside;
    F.RunSilent(p, [0x1b], NEW.(state := Escape), [kind]);
    assert [0x1b] + [kind] == [0x1b, kind];
  }

  lemma OpenByte(kind: u8)
    requires Opens(kind)
    ensures Run(NEW.(state := Escape), [kind]) == Out(Inside(kind, []), [])
  {
    F.RunOne(NEW.(state := Escape), kind);
    hide Run;
  }

  lemma CollectsByte(kind: u8, s: seq<u8>, b: u8)
    requires Opens(kind) && Payload(kind, [b])
    ensures Run(Inside(kind, s), [b]) == Out(Inside(kind, s + [b]), [])
  {
    F.RunOne(Inside(kind, s), b);
    assert [b][0] == b;
    hide Run;
    if |s| < MAX_OSC {
      assert s[..|s|] == s && (s + [b])[..|s| + 1] == s + [b];
    } else {
      assert (s + [b])[..MAX_OSC] == s[..MAX_OSC];
    }
  }

  lemma {:induction false} Collects(kind: u8, s: seq<u8>)
    requires Opens(kind) && Payload(kind, s)
    ensures Run(Inside(kind, []), s) == Out(Inside(kind, s), [])
    decreases |s|
  {
    if s == [] {
      RunNothing(Inside(kind, []));
    } else {
      var init, b := s[..|s| - 1], s[|s| - 1];
      assert s == init + [b];
      assert Payload(kind, init) && Payload(kind, [b]);
      hide Run, Inside, Payload, Settled;
      Collects(kind, init);
      CollectsByte(kind, init, b);
      F.RunSilent(Inside(kind, []), init, Inside(kind, init), [b]);
    }
  }

  lemma BytesAssoc(a: seq<u8>, b: seq<u8>, c: seq<u8>)
    ensures a + b + c == a + (b + c)
  {
  }

  /** ESC, the kind, the payload; then whatever comes is read inside. */
  lemma ReadsInside(p: Parser, kind: u8, s: seq<u8>, rest: seq<u8>)
    requires Settled(p) && p.state == Ground && p.needed == 0 && Opens(kind) && Payload(kind, s)
    ensures Run(p, [0x1b, kind] + s + rest) == Run(Inside(kind, s), rest)
  {
    hide Run, Inside, Payload, Wf;
    OpensString(p, kind);
    Collects(kind, s);
    F.RunSilent(Inside(kind, []), s, Inside(kind, s), rest);
    BytesAssoc([0x1b, kind], s, rest);
    F.RunSilent(p, [0x1b, kind], Inside(kind, []), s + rest);
  }

  /** What a string that came to its end does: an OSC hands over its payload,
      cut to 1024 bytes; the others do nothing. */
  function Handed(kind: u8, s: seq<u8>): seq<Action> {
    if kind == OSC then [Osc(s[..Min(|s|, 1024)])] else []
  }

  /** An OSC ended by BEL. */
  lemma BelEnds(p: Parser, s: seq<u8>)
    requires Settled(p) && p.state == Ground && p.needed == 0 && Payload(OSC, s)
    ensures Run(p, [0x1b, OSC] + s + [0x07]) == Out(NEW, Handed(OSC, s))
  {
    ReadsInside(p, OSC, s, [0x07]);
    F.RunOne(Inside(OSC, s), 0x07);
    hide Run;
  }

  /** Any string ended by ESC `\`. */
  lemma StringTerminatorEnds(p: Parser, kind: u8, s: seq<u8>)
    requires Settled(p) && p.state == Ground && p.needed == 0 && Opens(kind) && Payload(kind, s)
    ensures Run(p, [0x1b, kind] + s + [0x1b, 0x5c]) == Out(NEW, Handed(kind, s))
  {
    ReadsInside(p, kind, s, [0x1b, 0x5c]);
    var q := Escaped(kind, s);
    EscInside(kind, s);
    BackslashEnds(kind, s);
    hide Run, Inside, Escaped, Payload, Wf;
    F.RunSilent(Inside(kind, s), [0x1b], q, [0x5c]);
    assert [0x1b] + [0x5c] == [0x1b, 0x5c];
  }

  /** The parser after ESC inside a string. */
  function Escaped(kind: u8, s: seq<u8>): (q: Parser)
    requires Opens(kind)
    ensures Settled(q) && q.needed == 0
  {
    Inside(kind, s).(state := if kind == OSC then OscEscape else if kind == DCS then DcsEscape else SosEscape)
  }

  lemma EscInside(kind: u8, s: seq<u8>)
    requires Opens(kind)
    ensures Run(Inside(kind, s), [0x1b]) == Out(Escaped(kind, s), [])
  {
    F.RunOne(Inside(kind, s), 0x1b);
    hide Run;
  }

  lemma BackslashEnds(kind: u8, s: seq<u8>)
    requires Opens(kind)
    ensures Run(Escaped(kind, s), [0x5c]) == Out(NEW, Handed(kind, s))
  {
    F.RunOne(Escaped(kind, s), 0x5c);
    hide Run;
  }

  /** CAN and SUB end any string; in an OSC or a DCS the control is executed. */
  lemma CancelEnds(p: Parser, kind: u8, s: seq<u8>, b: u8)
    requires Settled(p) && p.state == Ground && p.needed == 0 && Opens(kind) && Payload(kind, s) && (b == 0x18 || b == 0x1a)
    ensures Run(p, [0x1b, kind] + s + [b]) == Out(NEW, if kind == OSC || kind == DCS then [Execute(b)] else [])
  {
    ReadsInside(p, kind, s, [b]);
    CancelByte(kind, s, b);
    hide Run, Inside, Payload;
  }

  lemma CancelByte(kind: u8, s: seq<u8>, b: u8)
    requires Opens(kind) && (b == 0x18 || b == 0x1a)
    ensures Run(Inside(kind, s), [b]) == Out(NEW, if kind == OSC || kind == DCS then [Execute(b)] else [])
  {
    F.RunOne(Inside(kind, s), b);
    hide Run;
  }

  /** ESC before any other byte abandons the string and starts over there. */
  lemma EscStartsOver(p: Parser, kind: u8, s: seq<u8>, b: u8, rest: seq<u8>)
    requires Settled(p) && p.state == Ground && p.needed == 0 && Opens(kind) && Payload(kind, s) && b != 0x5c
    ensures Run(p, [0x1b, kind] + s + ([0x1b, b] + rest)) == Run(NEW, [0x1b, b] + rest)
  {
    var e := NEW.(state := Escape);
    assert Settled(NEW) && Settled(e);
    hide Run, Inside, Escaped, Wf, Payload, Opens;
    ReadsInside(p, kind, s, [0x1b, b] + rest);
    EscInside(kind, s);
    F.RunEsc(NEW);
    ReadAgain(kind, s, b, rest);
    F.RunSilent(Inside(kind, s), [0x1b], Escaped(kind, s), [b] + rest);
    F.RunSilent(NEW, [0x1b], e, [b] + rest);
    BytesAssoc([0x1b], [b], rest);
    assert [0x1b] + [b] == [0x1b, b];
  }

  lemma ReadAgain(kind: u8, s: seq<u8>, b: u8, rest: seq<u8>)
    requires Opens(kind) && b != 0x5c
    ensures Run(Escaped(kind, s), [b] + rest) == Run(NEW.(state := Escape), [b] + rest)
  {
    var q, e := Escaped(kind, s), NEW.(state := Escape);
    assert Consume(q, b) == Consume(e, b) by {
      var first := Step(q, b);
      assert first == Out(e.(putback := Some(b)), []);
      assert Step(e, b).p.putback.None?;
      hide Step;
      assert [] + Step(e, b).acts == Step(e, b).acts;
    }
    assert ([b] + rest)[0] == b && ([b] + rest)[1..] == rest;
    hide Consume, Wf;
  }

  // ---------------------------------------------------------------- escape sequences

  ghost predicate Intermediates(s: seq<u8>) {
    forall i :: 0 <= i < |s| ==> 0x20 <= s[i] <= 0x2f
  }

  /** Whether a byte ends an escape sequence: right after ESC, not the five that
      open strings, nor the one that opens a control sequence. */
  predicate EndsEscape(inters: seq<u8>, b: u8) {
    0x30 <= b <= 0x7e && (inters == [] ==> !Opens(b) && b != 0x5b)
  }

  /** The parser among the intermediates of an escape sequence. */
  function Between(inters: seq<u8>): (p: Parser)
    ensures Settled(p) && p.needed == 0
  {
    NEW.(state := if inters == [] then Escape else EscapeIntermediate, inters := inters[..Min(|inters|, 2)],
         ignore := |inters| > 2)
  }

  lemma {:induction false} ReadsIntermediates(p: Parser, inters: seq<u8>)
    requires Settled(p) && p.state == Ground && p.needed == 0 && Intermediates(inters)
    ensures Run(p, [0x1b] + inters) == Out(Between(inters), [])
    decreases |inters|
  {
    if inters == [] {
      F.RunEsc(p);
      assert [0x1b] + inters == [0x1b];
    } else {
      var init, b := inters[..|inters| - 1], inters[|inters| - 1];
      assert [0x1b] + inters == [0x1b] + init + [b] && inters == init + [b];
      assert Intermediates(init);
      ReadsIntermediates(p, init);
      MoreIntermediates(init, b);
      hide Run, Between, Wf, Intermediates;
      F.RunSilent(p, [0x1b] + init, Between(init), [b]);
    }
  }

  lemma MoreIntermediates(inters: seq<u8>, b: u8)
    requires 0x20 <= b <= 0x2f
    ensures Run(Between(inters), [b]) == Out(Between(inters + [b]), [])
  {
    F.RunOne(Between(inters), b);
    hide Run;
    if |inters| < 2 {
      assert inters[..|inters|] == inters && (inters + [b])[..|inters| + 1] == inters + [b];
    } else {
      assert (inters + [b])[..2] == inters[..2];
    }
  }

  lemma EscapeFinal(inters: seq<u8>, b: u8)
    requires EndsEscape(inters, b)
    ensures Run(Between(inters), [b]) == Out(NEW, [Esc(inters[..Min(|inters|, 2)], b)])
  {
    F.RunOne(Between(inters), b);
    hide Run;
  }

  /** An escape sequence is one action that carries its intermediates, the first
      two of them. */
  lemma EscapeIsOne(p: Parser, inters: seq<u8>, b: u8)
    requires Settled(p) && p.state == Ground && p.needed == 0 && Intermediates(inters) && EndsEscape(inters, b)
    ensures Run(p, [0x1b] + inters + [b]) == Out(NEW, [Esc(inters[..Min(|inters|, 2)], b)])
  {
    ReadsIntermediates(p, inters);
    EscapeFinal(inters, b);
    hide Run, Between, Wf, Intermediates, EndsEscape;
    F.RunSilent(p, [0x1b] + inters, Between(inters), [b]);
  }

  // ---------------------------------------------------------------- control sequences with intermediates

  /** The parser among the intermediates of a control sequence. */
  function Mid(params: seq<u16>, inters: seq<u8>, ignore: bool): (p: Parser)
    requires |params| <= MAX_PARAMS
    ensures Settled(p) && p.needed == 0
  {
    Parser(CsiIntermediate, params, 0, inters[..Min(|inters|, 2)], ignore || |inters| > 2, [], [], 0, None)
  }

  lemma MidByte(params: seq<u16>, inters: seq<u8>, ignore: bool, b: u8)
    requires |params| <= MAX_PARAMS && 0x20 <= b <= 0x2f
    ensures Run(Mid(params, inters, ignore), [b]) == Out(Mid(params, inters + [b], ignore), [])
  {
    F.RunOne(Mid(params, inters, ignore), b);
    hide Run, GroundStep, StringStep;
    if |inters| < 2 {
      assert inters[..|inters|] == inters && (inters + [b])[..|inters| + 1] == inters + [b];
    } else {
      assert (inters + [b])[..2] == inters[..2];
    }
  }

  lemma {:induction false} MidBytes(params: seq<u16>, inters: seq<u8>, ignore: bool, more: seq<u8>)
    requires |params| <= MAX_PARAMS && Intermediates(more)
    ensures Run(Mid(params, inters, ignore), more) == Out(Mid(params, inters + more, ignore), [])
    decreases |more|
  {
    if more == [] {
      RunNothing(Mid(params, inters, ignore));
      assert inters + more == inters;
    } else {
      var init, b := more[..|more| - 1], more[|more| - 1];
      assert more == init + [b] && inters + more == inters + init + [b] && Intermediates(init);
      hide Run, Mid, Wf, Settled, Intermediates;
      MidBytes(params, inters, ignore, init);
      MidByte(params, inters + init, ignore, b);
      F.RunSilent(Mid(params, inters, ignore), init, Mid(params, inters + init, ignore), [b]);
    }
  }

  lemma MidFinal(params: seq<u16>, inters: seq<u8>, ignore: bool, fin: u8)
    requires |params| <= MAX_PARAMS && IsCsiFinal(fin)
    ensures Run(Mid(params, inters, ignore), [fin])
         == Out(NEW, [Csi(params, inters[..Min(|inters|, 2)], ignore || |inters| > 2, fin)])
  {
    F.RunOne(Mid(params, inters, ignore), fin);
    hide Run, GroundStep, StringStep;
  }

  /** The first intermediate ends the open parameter. */
  lemma ParamsThenMid(marker: seq<u8>, args: seq<seq<u8>>, b: u8)
    requires F.WfMarker(marker) && |args| > 0 && 0x20 <= b <= 0x2f
    requires forall i :: 0 <= i < |args| ==> F.IsDigits(args[i])
    ensures Run(F.After(marker, args), [b])
         == Out(Mid(F.Meanings(args)[..Min(|args|, MAX_PARAMS)], marker + [b], |args| > MAX_PARAMS), [])
  {
    F.FinishOne(marker, args);
    F.RunOne(F.After(marker, args), b);
    hide Run, F.Meanings, F.Clamped;
    assert (marker + [b])[..|marker| + 1] == marker + [b];
  }

  lemma EntryThenMid(b: u8)
    requires 0x20 <= b <= 0x2f
    ensures Run(NEW.(state := CsiEntry), [b]) == Out(Mid([], [b], false), [])
  {
    F.RunOne(NEW.(state := CsiEntry), b);
    hide Run;
    assert [b][..1] == [b];
  }

  /** Up to the first intermediate. */
  lemma UpToMid(marker: seq<u8>, args: seq<seq<u8>>, seps: seq<u8>, b: u8)
    requires F.WfMarker(marker) && F.WfArgs(args, seps) && 0x20 <= b <= 0x2f
    ensures |F.Kept(marker, args)| <= MAX_PARAMS
    ensures Run(NEW.(state := CsiEntry), marker + (F.Body(args, seps) + [b]))
         == Out(Mid(F.Kept(marker, args), marker + [b], |args| > MAX_PARAMS), [])
  {
    var rest := F.Body(args, seps) + [b];
    F.BodyEmpty(args, seps);
    hide Run, F.Meanings, F.Body, Wf, Settled, F.IsDigits, Mid;
    if marker == [] && args == [[]] {
      EntryThenMid(b);
      assert marker + rest == [b] && marker + [b] == [b];
    } else {
      F.RunBody(marker, args, seps);
      ParamsThenMid(marker, args, b);
      F.EntryOf(marker, rest);
      hide F.After, F.Collecting;
      F.RunSilent(F.Collecting([], 0, marker, false), F.Body(args, seps), F.After(marker, args), [b]);
    }
  }

  /** A control sequence with intermediates is one action that carries them
      after the marker, two in all; a third makes it one to be ignored. */
  lemma IntermediatesCarried(p: Parser, marker: seq<u8>, args: seq<seq<u8>>, seps: seq<u8>, inters: seq<u8>, fin: u8)
    requires Settled(p) && p.state == Ground && p.needed == 0 && IsCsiFinal(fin)
    requires F.WfMarker(marker) && F.WfArgs(args, seps) && Intermediates(inters) && inters != []
    ensures var all := marker + inters;
            Run(p, F.CSI + (marker + (F.Body(args, seps) + inters) + [fin]))
            == Out(NEW, [Csi(F.Kept(marker, args), all[..Min(|all|, 2)], |args| > MAX_PARAMS || |all| > 2, fin)])
  {
    var b, more, body := inters[0], inters[1..], F.Body(args, seps);
    var kept, many := F.Kept(marker, args), |args| > MAX_PARAMS;
    UpToMid(marker, args, seps, b);
    MidToFinal(kept, marker, inters, many, fin);
    F.RunIntroducer(p);
    assert Settled(NEW.(state := CsiEntry));
    hide Run, F.Body, F.Kept, Mid, Wf, Settled, Intermediates, F.WfArgs, F.WfMarker;
    F.RunSilent(NEW.(state := CsiEntry), marker + (body + [b]), Mid(kept, marker + [b], many), more + [fin]);
    Regroup(marker, body, inters, fin);
    F.RunSilent(p, F.CSI, NEW.(state := CsiEntry), marker + (body + inters) + [fin]);
  }

  lemma Regroup(marker: seq<u8>, body: seq<u8>, inters: seq<u8>, fin: u8)
    requires inters != []
    ensures marker + (body + [inters[0]]) + (inters[1..] + [fin]) == marker + (body + inters) + [fin]
  {
  }

  lemma MidToFinal(params: seq<u16>, marker: seq<u8>, inters: seq<u8>, many: bool, fin: u8)
    requires |params| <= MAX_PARAMS && Intermediates(inters) && inters != [] && IsCsiFinal(fin)
    ensures var all := marker + inters;
            Run(Mid(params, marker + [inters[0]], many), inters[1..] + [fin])
            == Out(NEW, [Csi(params, all[..Min(|all|, 2)], many || |all| > 2, fin)])
  {
    var b, more := inters[0], inters[1..];
    assert Intermediates(more) && marker + [b] + more == marker + inters;
    MidBytes(params, marker + [b], many, more);
    MidFinal(params, marker + inters, many, fin);
    hide Run, Mid, Wf, Settled, Intermediates;
    F.RunSilent(Mid(params, marker + [b], many), more, Mid(params, marker + inters, many), [fin]);
  }

  /** A byte beyond ASCII among the parameters spoils the sequence: it still
      ends at its final byte, as one to be ignored. */
  lemma HighByteSpoils(p: Parser, b: u8, fin: u8)
    requires Settled(p) && (p.state == CsiEntry || p.state == CsiParam) && b >= 0x80 && IsCsiFinal(fin)
    ensures var o := Run(p, [b] + [fin]);
            o.p == NEW && |o.acts| == 1 && o.acts[0].Csi? && o.acts[0].ignore && o.acts[0].fin == fin
  {
    hide Run, Wf;
    var q := p.(state := CsiParam, ignore := true);
    Spoils(p, b);
    SpoiledFinal(q, fin);
    F.RunSilent(p, [b], q, [fin]);
  }

  lemma SpoiledFinal(q: Parser, fin: u8)
    requires Settled(q) && q.state == CsiParam && q.ignore && IsCsiFinal(fin)
    ensures var o := Run(q, [fin]); o.p == NEW && |o.acts| == 1 && o.acts[0].Csi? && o.acts[0].ignore && o.acts[0].fin == fin
  {
    hide Run;
    SpoiledStep(q, fin);
    F.RunOne(q, fin);
    hide Step, Wf;
  }

  lemma SpoiledStep(q: Parser, fin: u8)
    requires Settled(q) && q.state == CsiParam && q.ignore && IsCsiFinal(fin)
    ensures var o := Step(q, fin);
            o.p == NEW && |o.acts| == 1 && o.acts[0].Csi? && o.acts[0].ignore && o.acts[0].fin == fin
  {
    hide GroundStep, StringStep, CommonStep, PushInter;
  }

  lemma Spoils(p: Parser, b: u8)
    requires Settled(p) && (p.state == CsiEntry || p.state == CsiParam) && b >= 0x80
    ensures Settled(p.(state := CsiParam, ignore := true)) && Run(p, [b]) == Out(p.(state := CsiParam, ignore := true), [])
  {
    hide Run;
    SpoilStep(p, b);
    F.RunOne(p, b);
    hide Step, Wf;
  }

  lemma SpoilStep(p: Parser, b: u8)
    requires Settled(p) && (p.state == CsiEntry || p.state == CsiParam) && b >= 0x80
    ensures Settled(p.(state := CsiParam, ignore := true)) && Step(p, b) == Out(p.(state := CsiParam, ignore := true), [])
  {
    hide GroundStep, StringStep, CommonStep, PushInter, FinishParam;
  }

  /** A control sequence with a marker among its parameters, or a parameter
      after an intermediate, is swallowed up to its final byte. */
  lemma MisplacedIsSwallowed(p: Parser, m: u8, junk: seq<u8>, fin: u8)
    requires Settled(p) && (p.state == CsiParam || p.state == CsiIntermediate) && IsCsiFinal(fin)
    requires if p.state == CsiParam then 0x3c <= m <= 0x3f else 0x30 <= m <= 0x3f
    requires forall i :: 0 <= i < |junk| ==> 0x20 <= junk[i] <= 0x3f || junk[i] >= 0x7f
    ensures Run(p, [m] + junk + [fin]) == Out(NEW, [])
  {
    var q := p.(state := CsiIgnore);
    Misplaced(p, m);
    Swallows(q, junk);
    SwallowedFinal(q, fin);
    hide Run, Wf, Settled;
    F.RunSilent(p, [m], q, junk);
    F.RunSilent(p, [m] + junk, q, [fin]);
  }

  lemma Misplaced(p: Parser, m: u8)
    requires Settled(p) && (p.state == CsiParam || p.state == CsiIntermediate)
    requires if p.state == CsiParam then 0x3c <= m <= 0x3f else 0x30 <= m <= 0x3f
    ensures Settled(p.(state := CsiIgnore)) && Run(p, [m]) == Out(p.(state := CsiIgnore), [])
  {
    F.RunOne(p, m);
    hide Run, GroundStep, StringStep;
  }

  lemma SwallowedFinal(q: Parser, fin: u8)
    requires Settled(q) && q.state == CsiIgnore && IsCsiFinal(fin)
    ensures Run(q, [fin]) == Out(NEW, [])
  {
    hide Run;
    FinalStep(q, fin);
    F.RunOne(q, fin);
    hide Step, Wf;
  }

  lemma FinalStep(q: Parser, fin: u8)
    requires Settled(q) && q.state == CsiIgnore && IsCsiFinal(fin)
    ensures Step(q, fin) == Out(NEW, [])
  {
    hide GroundStep, StringStep, CommonStep, PushInter, FinishParam;
  }

  lemma {:induction false} Swallows(q: Parser, junk: seq<u8>)
    requires Settled(q) && q.state == CsiIgnore
    requires forall i :: 0 <= i < |junk| ==> 0x20 <= junk[i] <= 0x3f || junk[i] >= 0x7f
    ensures Run(q, junk) == Out(q, [])
    decreases |junk|
  {
    if junk == [] {
      RunNothing(q);
    } else {
      var init, b := junk[..|junk| - 1], junk[|junk| - 1];
      assert junk == init + [b];
      Swallows(q, init);
      SwallowsOne(q, b);
      hide Run, Wf, Settled;
      F.RunSilent(q, init, q, [b]);
    }
  }

  lemma SwallowsOne(q: Parser, b: u8)
    requires Settled(q) && q.state == CsiIgnore && (0x20 <= b <= 0x3f || b >= 0x7f)
    ensures Run(q, [b]) == Out(q, [])
  {
    hide Run;
    SwallowStep(q, b);
    F.RunOne(q, b);
    hide Step, Wf;
  }

  lemma SwallowStep(q: Parser, b: u8)
    requires Settled(q) && q.state == CsiIgnore && (0x20 <= b <= 0x3f || b >= 0x7f)
    ensures Step(q, b) == Out(q, [])
  {
    hide GroundStep, StringStep, CommonStep, PushInter, FinishParam;
  }

  // ---------------------------------------------------------------- interruptions

  /** A C0 control inside an escape or control sequence is executed at once and
      the sequence goes on as if it had not been there. */
  lemma ControlInside(p: Parser, b: u8, rest: seq<u8>)
    requires Settled(p) && InSequence(p.state) && (b <= 0x17 || b == 0x19 || 0x1c <= b <= 0x1f)
    ensures var on := Run(p, rest); Run(p, [b] + rest) == Out(on.p, [Execute(b)] + on.acts)
  {
    F.RunOne(p, b);
    RunAppend(p, [b], rest);
    hide Run, GroundStep, StringStep;
  }

  /** CAN and SUB inside one end it, executed; ESC starts over. */
  lemma SequenceAborted(p: Parser, b: u8)
    requires Settled(p) && InSequence(p.state) && b in {0x18, 0x1a, 0x1b}
    ensures b == 0x1b ==> Run(p, [b]) == Out(NEW.(state := Escape), [])
    ensures b != 0x1b ==> IsIdle(Run(p, [b]).p) && Run(p, [b]).acts == [Execute(b)]
  {
    hide Run;
    AbortStep(p, b);
    F.RunOne(p, b);
    hide Step, Wf, InSequence;
  }

  lemma AbortStep(p: Parser, b: u8)
    requires Settled(p) && InSequence(p.state) && b in {0x18, 0x1a, 0x1b}
    ensures b == 0x1b ==> Step(p, b) == Out(NEW.(state := Escape), [])
    ensures b != 0x1b ==> IsIdle(Step(p, b).p) && Step(p, b).acts == [Execute(b)]
  {
    hide GroundStep, StringStep;
  }

  /** A byte that does not go on with a character cut short is read as it would
      be with none begun, after U+FFFD for the one cut short. */
  lemma CharacterCutShort(p: Parser, b: u8, rest: seq<u8>)
    requires Settled(p) && p.needed > 0 && !(0x80 <= b <= 0xbf)
    ensures var q := p.(utf8 := [], needed := 0);
            Settled(q) && Run(p, [b] + rest) == Out(Run(q, [b] + rest).p, [Print(0xFFFD)] + Run(q, [b] + rest).acts)
  {
    var q := p.(utf8 := [], needed := 0);
    assert ([b] + rest)[0] == b && ([b] + rest)[1..] == rest;
    CutShortByte(p, b);
    hide Consume;
    ActsAssoc([Print(0xFFFD)], Consume(q, b).acts, Run(Consume(q, b).p, rest).acts);
  }

  lemma CutShortByte(p: Parser, b: u8)
    requires Settled(p) && p.needed > 0 && !(0x80 <= b <= 0xbf)
    ensures var q := p.(utf8 := [], needed := 0);
            Settled(q) && Consume(p, b) == Out(Consume(q, b).p, [Print(0xFFFD)] + Consume(q, b).acts)
  {
    var q := p.(utf8 := [], needed := 0);
    assert Step(p, b) == Out(q.(putback := Some(b)), [Print(0xFFFD)]);
    assert Step(q, b).p.putback.None?;
    hide Step;
  }

  /** A continuation byte goes on with a character begun; with the last of them
      it is printed, as U+FFFD when section 4 of RFC 3629 has no such sequence. */
  lemma CharacterGoesOn(p: Parser, b: u8)
    requires Settled(p) && p.needed > 0 && 0x80 <= b <= 0xbf
    ensures var s := p.utf8 + [b];
            if |s| < p.needed then Run(p, [b]) == Out(p.(utf8 := s), [])
            else 2 <= |s| <= 4 && PendingUtf8(s, |s|) && IsIdle(Run(p, [b]).p)
                 && Run(p, [b]).acts == [Print(if Rfc3629(s) then Decode(s).value else 0xFFFD)]
  {
    hide Run;
    GoesOnStep(p, b);
    F.RunOne(p, b);
    var s := p.utf8 + [b];
    if |s| >= p.needed {
      DecodeIsRfc3629(s);
    }
    hide Step, Wf, Decode, Rfc3629;
  }

  lemma GoesOnStep(p: Parser, b: u8)
    requires Settled(p) && p.needed > 0 && 0x80 <= b <= 0xbf
    ensures var s := p.utf8 + [b];
            if |s| < p.needed then Step(p, b) == Out(p.(utf8 := s), [])
            else 2 <= |s| <= 4 && PendingUtf8(s, |s|)
                 && Step(p, b) == Out(p.(utf8 := [], needed := 0),
                                   [Print(if Decode(s).Some? then Decode(s).value else 0xFFFD)])
  {
    hide SequenceStep, StringStep, Decode;
  }

  /** DEL does nothing after ESC or among the parameters; a byte beyond ASCII,
      or DEL after an intermediate, ends an escape sequence for nothing. */
  lemma StrayBytes(p: Parser, b: u8)
    requires Settled(p) && b >= 0x7f
    ensures p.state in {Escape, CsiEntry, CsiParam} && b == 0x7f ==> Run(p, [b]) == Out(p, [])
    ensures p.state == EscapeIntermediate || (p.state == Escape && b > 0x7f) ==> Run(p, [b]) == Out(NEW, [])
  {
    hide Run;
    if p.state in {Escape, CsiEntry, CsiParam, EscapeIntermediate} {
      StrayStep(p, b);
    }
    F.RunOne(p, b);
    hide Step, Wf;
  }

  lemma StrayStep(p: Parser, b: u8)
    requires Settled(p) && b >= 0x7f && p.state in {Escape, CsiEntry, CsiParam, EscapeIntermediate}
    ensures p.state in {Escape, CsiEntry, CsiParam} && b == 0x7f ==> Step(p, b) == Out(p, [])
    ensures p.state == EscapeIntermediate || (p.state == Escape && b > 0x7f) ==> Step(p, b) == Out(NEW, [])
  {
    hide GroundStep, StringStep, CommonStep, PushInter, FinishParam;
  }

  /** Single bytes in Ground: controls are executed, DEL is dropped, printable
      ASCII prints itself, and what cannot begin a character prints U+FFFD. */
  lemma GroundBytes(p: Parser, b: u8)
    requires Settled(p) && p.state == Ground && p.needed == 0 && b != 0x1b && !(0xc2 <= b <= 0xf4)
    ensures IsIdle(Run(p, [b]).p)
    ensures Run(p, [b]).acts == if b < 0x20 then [Execute(b)] else if b < 0x7f then [Print(b)] else if b == 0x7f then []
                                else [Print(0xFFFD)]
  {
    GroundByte(p, b);
    F.RunOne(p, b);
    hide Run, Step, Wf;
  }

  lemma GroundByte(p: Parser, b: u8)
    requires Settled(p) && p.state == Ground && p.needed == 0 && b != 0x1b && !(0xc2 <= b <= 0xf4)
    ensures var o := Step(p, b);
            && o.p.putback.None? && IsIdle(o.p)
            && o.acts == if b < 0x20 then [Execute(b)] else if b < 0x7f then [Print(b)] else if b == 0x7f then []
                         else [Print(0xFFFD)]
  {
    hide SequenceStep, StringStep;
  }
}
