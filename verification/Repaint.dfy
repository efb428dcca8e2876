/** The repaint printer, the actions its bytes stand for, and the proof that
    the parser reads exactly those actions back. */
module Repaint {
  import opened VtTypes
  import opened Grid
  import opened Utf8
  import opened CsiFidelity
  import P = ParserSpec
  import S = ScreenSpec
  import D = Digits

  // ---------------------------------------------------------------- renditions

  /** The SGR parameters that select a colour; none for the default. */
  function ColorParams(fg: bool, c: Color): (ps: seq<seq<u16>>)
    ensures WfSgr(ps)
  {
    match c
    case Default => []
    case Indexed(n) =>
      if n < 8 then [[(if fg then 30 else 40) + n]]
      else if n < 16 then [[(if fg then 90 else 100) + (n - 8)]]
      else [[if fg then 38 else 48, 5, n]]
    case Rgb(r, g, b) => [[if fg then 38 else 48, 2, r, g, b]]
  }

  /** A rendition that is selected or left alone. */
  function When(on: bool, n: u16): (ps: seq<seq<u16>>)
    ensures WfSgr(ps)
  {
    if on then [[n]] else []
  }

  function AttrParams(attrs: u16): (ps: seq<seq<u16>>)
    ensures WfSgr(ps)
  {
    When(attrs % 2 == 1, 1) + When(attrs / 2 % 2 == 1, 4) + When(attrs / 4 % 2 == 1, 7)
  }

  /** Parameter lists that fit a control sequence. */
  predicate WfSgr(ps: seq<seq<u16>>) {
    forall i :: 0 <= i < |ps| ==> 1 <= |ps[i]| <= P.MAX_PARAMS
  }

  const RESET: seq<seq<u16>> := [[0]]

  /** From any rendition to this one: a reset, then what differs from plain. */
  function PenParams(pen: Pen): (ps: seq<seq<u16>>)
    ensures WfSgr(ps)
  {
    hide AttrParams, ColorParams;
    RESET + AttrParams(pen.attrs) + ColorParams(true, pen.fg) + ColorParams(false, pen.bg)
  }

  /** One SGR sequence for each parameter list. */
  function SgrBytes(ps: seq<seq<u16>>): seq<u8>
    requires WfSgr(ps)
  {
    if ps == [] then [] else SgrBytes(ps[..|ps| - 1]) + Sequence([], ps[|ps| - 1], 0x6d)
  }

  function SgrActs(ps: seq<seq<u16>>): (acts: seq<Action>)
    ensures |acts| == |ps|
  {
    seq(|ps|, i requires 0 <= i < |ps| => Csi(ps[i], [], false, 0x6d))
  }

  // ---------------------------------------------------------------- cells, rows, grids

  predicate IsBlankCell(c: Cell) {
    c == Blank(Default)
  }

  /** The rendition a cell was printed with. */
  function CellPen(c: Cell): Pen {
    Pen(c.fg, c.bg, Sgr(c.attrs))
  }

  /** The rendition in force after `n` cells of a row. */
  function PenAfter(row: Row, n: nat): Pen
    requires n <= |row|
  {
    if n == 0 then PLAIN else CellPen(row[n - 1])
  }

  /** One past the last cell that is not a default blank. */
  function InkEnd(row: Row): (n: nat)
    ensures n <= |row|
    ensures n > 0 ==> !IsBlankCell(row[n - 1])
    ensures forall k :: n <= k < |row| ==> IsBlankCell(row[k])
  {
    if row == [] then 0
    else if !IsBlankCell(row[|row| - 1]) then |row|
    else InkEnd(row[..|row| - 1])
  }

  function CharBytes(cp: u32): seq<u8> {
    if IsScalar(cp) then Encode(cp) else []
  }

  /** A cell after the rendition `last`; the tail of a pair prints nothing. */
  function CellBytes(last: Pen, c: Cell): seq<u8> {
    (if CellPen(c) != last then SgrBytes(PenParams(CellPen(c))) else [])
    + (if IsTail(c) then [] else CharBytes(c.codepoint))
  }

  function CellActs(last: Pen, c: Cell): seq<Action> {
    (if CellPen(c) != last then SgrActs(PenParams(CellPen(c))) else [])
    + (if IsTail(c) then [] else [Print(c.codepoint)])
  }

  function RowBytes(row: Row, n: nat): seq<u8>
    requires n <= |row|
  {
    if n == 0 then [] else RowBytes(row, n - 1) + CellBytes(PenAfter(row, n - 1), row[n - 1])
  }

  function RowActs(row: Row, n: nat): seq<Action>
    requires n <= |row|
  {
    if n == 0 then [] else RowActs(row, n - 1) + CellActs(PenAfter(row, n - 1), row[n - 1])
  }

  const CRLF: seq<u8> := [0x0d, 0x0a]

  function NextLineBytes(): seq<u8> {
    CRLF + SgrBytes(RESET)
  }

  const NEXT_LINE: seq<Action> := [Execute(0x0d), Execute(0x0a)] + [Csi([0], [], false, 0x6d)]

  /** The first `n` rows, each but the last of the grid followed by a new line. */
  function GridBytes(g: Rows, n: nat): seq<u8>
    requires n <= |g|
  {
    if n == 0 then []
    else
      GridBytes(g, n - 1) + RowBytes(g[n - 1], InkEnd(g[n - 1])) + (if n < |g| then NextLineBytes() else [])
  }

  lemma NoGridBytes(g: Rows)
    ensures GridBytes(g, 0) == []
  {
  }

  lemma GridBytesNext(g: Rows, n: nat)
    requires n < |g|
    ensures GridBytes(g, n + 1)
         == GridBytes(g, n) + RowBytes(g[n], InkEnd(g[n])) + (if n + 1 < |g| then NextLineBytes() else [])
  {
  }

  function GridActs(g: Rows, n: nat): seq<Action>
    requires n <= |g|
  {
    if n == 0 then []
    else
      GridActs(g, n - 1) + RowActs(g[n - 1], InkEnd(g[n - 1])) + (if n < |g| then NEXT_LINE else [])
  }

  function PrivateBytes(mode: u16, on: bool): seq<u8> {
    Sequence([0x3f], [mode], if on then 0x68 else 0x6c)
  }

  function PrivateAct(mode: u16, on: bool): Action {
    Csi([mode], [0x3f], false, if on then 0x68 else 0x6c)
  }

  function HeadBytes(inAlt: bool): seq<u8> {
    (if inAlt then PrivateBytes(1049, true) else []) + SgrBytes(RESET)
  }

  function HeadActs(inAlt: bool): seq<Action> {
    (if inAlt then [PrivateAct(1049, true)] else []) + [Csi([0], [], false, 0x6d)]
  }

  function FootBytes(row: u16, col: u16, visible: bool): seq<u8> {
    Sequence([], [SatAdd16(row, 1), SatAdd16(col, 1)], 0x48) + (if visible then [] else PrivateBytes(25, false))
  }

  function FootActs(row: u16, col: u16, visible: bool): seq<Action> {
    [Csi([SatAdd16(row, 1), SatAdd16(col, 1)], [], false, 0x48)] + (if visible then [] else [PrivateAct(25, false)])
  }

  /** `repaint_bytes`. */
  function RepaintBytes(c: S.Core): seq<u8> {
    HeadBytes(c.inAlt) + GridBytes(c.grid, |c.grid|) + FootBytes(c.cursorRow, c.cursorCol, c.cursorVisible)
  }

  function RepaintActs(c: S.Core): seq<Action> {
    HeadActs(c.inAlt) + GridActs(c.grid, |c.grid|) + FootActs(c.cursorRow, c.cursorCol, c.cursorVisible)
  }

  // ---------------------------------------------------------------- the printer's pieces

  /** `ESC [ n fin`. */
  method EmitOne(n: u16, fin: u8) returns (out: seq<u8>)
    requires P.IsCsiFinal(fin)
    ensures out == Sequence([], [n], fin)
  {
    SequenceIs([], [n], fin);
    var digits := D.WriteU16(n);
    hide Sequence, Joined;
    out := CSI + digits + [fin];
  }

  /** `ESC [ a ; b fin`. */
  method EmitTwo(a: u16, b: u16, fin: u8) returns (out: seq<u8>)
    requires P.IsCsiFinal(fin)
    ensures out == Sequence([], [a, b], fin)
  {
    SequenceIs([], [a, b], fin);
    JoinedPush([a], b);
    assert [a, b][..1] == [a] && [a] + [b] == [a, b];
    var first := D.WriteU16(a);
    var second := D.WriteU16(b);
    hide Sequence, Joined;
    out := CSI + first + [0x3b] + second + [fin];
  }

  lemma OneSgr(ns: seq<u16>)
    requires 1 <= |ns| <= P.MAX_PARAMS
    ensures SgrBytes([ns]) == Sequence([], ns, 0x6d)
  {
    assert [ns][..0] == [];
  }

  /** `ESC [ 38 ; kind ;` for a foreground, `48` for a background. */
  function Select(fg: bool, kind: u8): seq<u8> {
    CSI + [if fg then 0x33 else 0x34, 0x38, 0x3b, kind, 0x3b]
  }

  lemma SelectIs(fg: bool, kind: u16)
    requires kind < 10
    ensures CSI + Joined([if fg then 38 else 48, kind]) + [0x3b] == Select(fg, 0x30 + kind)
  {
    var k: u16 := if fg then 38 else 48;
    JoinedPush([k], kind);
    SequenceIs([], [k], 0x6d);
    assert [k] + [kind] == [k, kind] && [k][..1] == [k];
    assert D.Decimal(k) == [if fg then 0x33 else 0x34, 0x38];
    assert D.Decimal(kind) == [0x30 + kind];
    hide Joined, D.Decimal;
  }

  /** One more number after the others. */
  lemma JoinedMore(ns: seq<u16>, n: u16, all: seq<u16>, before: seq<u8>)
    requires |ns| > 0 && all == ns + [n] && CSI + Joined(ns) == before
    ensures CSI + Joined(all) == before + [0x3b] + D.Decimal(n)
  {
    hide Joined, D.Decimal, CSI;
    JoinedPush(ns, n);
    FourParts(CSI, Joined(ns), [0x3b], D.Decimal(n));
  }

  /** A whole SGR sequence. */
  lemma JoinedSgr(ns: seq<u16>, before: seq<u8>)
    requires 1 <= |ns| <= P.MAX_PARAMS && CSI + Joined(ns) == before
    ensures SgrBytes([ns]) == before + [0x6d]
  {
    OneSgr(ns);
    SequenceIs([], ns, 0x6d);
    hide Joined, Sequence, SgrBytes;
    assert CSI + [] == CSI;
  }

  lemma IndexedSgr(fg: bool, n: u8)
    requires n >= 16
    ensures SgrBytes(ColorParams(fg, Indexed(n))) == Select(fg, 0x35) + D.Decimal(n) + [0x6d]
  {
    hide Joined, D.Decimal, Sequence, SgrBytes, Select;
    var k: u16 := if fg then 38 else 48;
    var ns: seq<u16> := [k, 5, n];
    assert ColorParams(fg, Indexed(n)) == [ns];
    hide ColorParams;
    SelectIs(fg, 5);
    JoinedFirst([k, 5], n, ns, Select(fg, 0x35));
    JoinedSgr(ns, Select(fg, 0x35) + D.Decimal(n));
  }

  /** One more number after an open separator. */
  lemma JoinedFirst(ns: seq<u16>, n: u16, all: seq<u16>, before: seq<u8>)
    requires |ns| > 0 && all == ns + [n] && CSI + Joined(ns) + [0x3b] == before
    ensures CSI + Joined(all) == before + D.Decimal(n)
  {
    hide Joined, D.Decimal, CSI;
    JoinedPush(ns, n);
    FourParts(CSI, Joined(ns), [0x3b], D.Decimal(n));
  }

  lemma FourParts(a: seq<u8>, b: seq<u8>, c: seq<u8>, d: seq<u8>)
    ensures a + (b + c + d) == a + b + c + d
  {
  }

  lemma RgbSgr(fg: bool, r: u8, g: u8, b: u8)
    ensures SgrBytes(ColorParams(fg, Rgb(r, g, b)))
         == Select(fg, 0x32) + D.Decimal(r) + [0x3b] + D.Decimal(g) + [0x3b] + D.Decimal(b) + [0x6d]
  {
    hide Joined, D.Decimal, Sequence, SgrBytes, Select;
    var k: u16 := if fg then 38 else 48;
    var ns3: seq<u16> := [k, 2, r];
    var ns4: seq<u16> := [k, 2, r, g];
    var ns: seq<u16> := [k, 2, r, g, b];
    assert ColorParams(fg, Rgb(r, g, b)) == [ns];
    SelectIs(fg, 2);
    JoinedMore([k, 2], r, ns3, CSI + Joined([k, 2]));
    var upToRed := Select(fg, 0x32) + D.Decimal(r);
    JoinedMore(ns3, g, ns4, upToRed);
    var upToGreen := upToRed + [0x3b] + D.Decimal(g);
    JoinedMore(ns4, b, ns, upToGreen);
    JoinedSgr(ns, upToGreen + [0x3b] + D.Decimal(b));
  }

  method EmitIndexed(fg: bool, n: u8) returns (out: seq<u8>)
    requires n >= 16
    ensures out == SgrBytes(ColorParams(fg, Indexed(n)))
  {
    hide SgrBytes, ColorParams, D.Decimal;
    IndexedSgr(fg, n);
    var digits := D.WriteU16(n);
    out := Select(fg, 0x35) + digits + [0x6d];
  }

  method EmitRgb(fg: bool, r: u8, g: u8, b: u8) returns (out: seq<u8>)
    ensures out == SgrBytes(ColorParams(fg, Rgb(r, g, b)))
  {
    hide SgrBytes, ColorParams, D.Decimal;
    RgbSgr(fg, r, g, b);
    var red := D.WriteU16(r);
    var green := D.WriteU16(g);
    var blue := D.WriteU16(b);
    out := Select(fg, 0x32) + red + [0x3b] + green + [0x3b] + blue + [0x6d];
  }

  /** `emit_color`. */
  method EmitColor(fg: bool, c: Color) returns (out: seq<u8>)
    ensures out == SgrBytes(ColorParams(fg, c))
  {
    match c
    case Default => out := [];
    case Indexed(n) =>
      if n < 8 {
        OneSgr([(if fg then 30 else 40) + n]);
        out := EmitOne((if fg then 30 else 40) + n, 0x6d);
      } else if n < 16 {
        OneSgr([(if fg then 90 else 100) + (n - 8)]);
        out := EmitOne((if fg then 90 else 100) + (n - 8), 0x6d);
      } else {
        out := EmitIndexed(fg, n);
      }
    case Rgb(r, g, b) => out := EmitRgb(fg, r, g, b);
  }

  lemma {:induction false} SgrBytesAppend(a: seq<seq<u16>>, b: seq<seq<u16>>)
    requires WfSgr(a) && WfSgr(b)
    ensures SgrBytes(a + b) == SgrBytes(a) + SgrBytes(b)
    decreases |b|
  {
    hide Sequence;
    if b == [] {
      assert a + b == a;
    } else {
      var init, ns := b[..|b| - 1], b[|b| - 1];
      SgrBytesAppend(a, init);
      assert (a + b)[..|a + b| - 1] == a + init;
      assert SgrBytes(a + b) == SgrBytes(a + init) + Sequence([], ns, 0x6d);
    }
  }

  method EmitIf(on: bool, n: u16) returns (out: seq<u8>)
    ensures out == SgrBytes(When(on, n))
  {
    out := [];
    if on {
      OneSgr([n]);
      out := EmitOne(n, 0x6d);
    }
  }

  /** `emit_attrs`. */
  method EmitAttrs(attrs: u16) returns (out: seq<u8>)
    ensures out == SgrBytes(AttrParams(attrs))
  {
    hide SgrBytes, When;
    var bold := EmitIf(attrs % 2 == 1, 1);
    var under := EmitIf(attrs / 2 % 2 == 1, 4);
    var inverse := EmitIf(attrs / 4 % 2 == 1, 7);
    ghost var b, u := When(attrs % 2 == 1, 1), When(attrs / 2 % 2 == 1, 4);
    SgrBytesAppend(b, u);
    SgrBytesAppend(b + u, When(attrs / 4 % 2 == 1, 7));
    out := bold + under + inverse;
  }

  lemma PenSgr(pen: Pen)
    ensures SgrBytes(PenParams(pen))
         == Sequence([], [0], 0x6d) + SgrBytes(AttrParams(pen.attrs))
            + SgrBytes(ColorParams(true, pen.fg)) + SgrBytes(ColorParams(false, pen.bg))
  {
    var attrs, fg, bg := AttrParams(pen.attrs), ColorParams(true, pen.fg), ColorParams(false, pen.bg);
    hide Sequence, SgrBytes, AttrParams, ColorParams;
    SgrBytesAppend(RESET + attrs + fg, bg);
    SgrBytesAppend(RESET + attrs, fg);
    SgrBytesAppend(RESET, attrs);
    OneSgr([0]);
  }

  /** A reset, then the attributes and colours. */
  method EmitPen(pen: Pen) returns (out: seq<u8>)
    ensures out == SgrBytes(PenParams(pen))
  {
    hide Sequence, SgrBytes, AttrParams, ColorParams, PenParams;
    PenSgr(pen);
    var reset := EmitOne(0, 0x6d);
    var attrs := EmitAttrs(pen.attrs);
    var fg := EmitColor(true, pen.fg);
    var bg := EmitColor(false, pen.bg);
    out := reset + attrs + fg + bg;
  }

  method EmitPrivate(mode: u16, on: bool) returns (out: seq<u8>)
    ensures out == PrivateBytes(mode, on)
  {
    SequenceIs([0x3f], [mode], if on then 0x68 else 0x6c);
    var digits := D.WriteU16(mode);
    assert [mode][..1] == [mode];
    hide Sequence, Joined;
    out := CSI + [0x3f] + digits + [if on then 0x68 else 0x6c];
  }

  // ---------------------------------------------------------------- the parser reads the actions back

  /** From a new parser the bytes are exactly these actions, and leave the
      parser new. */
  ghost predicate Reads(bytes: seq<u8>, acts: seq<Action>) {
    P.Run(P.NEW, bytes) == P.Out(P.NEW, acts)
  }

  lemma ReadsNothing()
    ensures Reads([], [])
  {
    P.RunNothing(P.NEW);
  }

  lemma ReadsBoth(a: seq<u8>, xs: seq<Action>, b: seq<u8>, ys: seq<Action>)
    requires Reads(a, xs) && Reads(b, ys)
    ensures Reads(a + b, xs + ys)
  {
    P.RunAppend(P.NEW, a, b);
    hide P.Run, P.Wf;
  }

  lemma ReadsNumbers(marker: seq<u8>, ns: seq<u16>, fin: u8)
    requires WfMarker(marker) && 1 <= |ns| <= P.MAX_PARAMS && P.IsCsiFinal(fin)
    ensures Reads(Sequence(marker, ns, fin), [Csi(ns, marker, false, fin)])
  {
    NumbersSurvive(P.NEW, marker, ns, fin);
    hide P.Run, Sequence;
  }

  lemma ReadsByte(b: u8, a: Action)
    requires (0x20 <= b <= 0x7e && a == Print(b)) || ((b == 0x0d || b == 0x0a) && a == Execute(b))
    ensures Reads([b], [a])
  {
    RunOne(P.NEW, b);
    hide P.Run;
  }

  /** The parser holding the first `k` bytes of a character. */
  function Holding(s: seq<u8>, k: nat): P.Parser
    requires 1 <= k < |s| <= 4
  {
    P.NEW.(utf8 := s[..k], needed := |s|)
  }

  lemma RunLead(s: seq<u8>)
    requires 2 <= |s| <= 4 && PendingUtf8(s, |s|)
    ensures P.Settled(Holding(s, 1)) && P.Run(P.NEW, s[..1]) == P.Out(Holding(s, 1), [])
  {
    RunOne(P.NEW, s[0]);
    hide P.Run;
    assert s[..1] == [s[0]];
  }

  lemma RunNext(s: seq<u8>, k: nat)
    requires 2 <= |s| <= 4 && PendingUtf8(s, |s|) && 1 <= k < |s|
    ensures P.Settled(Holding(s, k))
    ensures k + 1 < |s| ==> P.Run(Holding(s, k), [s[k]]) == P.Out(Holding(s, k + 1), [])
    ensures k + 1 == |s| ==>
              var c := Decode(s);
              P.Run(Holding(s, k), [s[k]]) == P.Out(P.NEW, [Print(if c.Some? then c.value else REPLACEMENT)])
  {
    RunOne(Holding(s, k), s[k]);
    hide P.Run, Decode;
    assert s[..k] + [s[k]] == s[..k + 1];
    assert s[..|s|] == s;
  }

  lemma {:induction false} RunHolding(s: seq<u8>, k: nat)
    requires 2 <= |s| <= 4 && PendingUtf8(s, |s|) && 1 <= k < |s|
    ensures P.Settled(Holding(s, k)) && P.Run(P.NEW, s[..k]) == P.Out(Holding(s, k), [])
  {
    if k == 1 {
      RunLead(s);
    } else {
      RunHolding(s, k - 1);
      RunNext(s, k - 1);
      RunNext(s, k);
      hide P.Run, P.Wf, P.Settled, Holding;
      RunSilent(P.NEW, s[..k - 1], Holding(s, k - 1), [s[k - 1]]);
      assert s[..k - 1] + [s[k - 1]] == s[..k];
    }
  }

  /** Every printable scalar goes through UTF-8 and back. */
  lemma ReadsChar(cp: u32)
    requires IsScalar(cp) && cp >= 0x20 && cp != 0x7f
    ensures Reads(Encode(cp), [Print(cp)])
  {
    var s := Encode(cp);
    if cp < 0x80 {
      ReadsByte(cp, Print(cp));
    } else {
      DecodeEncode(cp);
      var k := |s| - 1;
      RunHolding(s, k);
      RunNext(s, k);
      hide P.Run, P.Wf, P.Settled, Holding, Encode, Decode;
      RunSilent(P.NEW, s[..k], Holding(s, k), [s[k]]);
      assert s[..k] + [s[k]] == s;
    }
  }

  lemma {:induction false} ReadsSgr(ps: seq<seq<u16>>)
    requires WfSgr(ps)
    ensures Reads(SgrBytes(ps), SgrActs(ps))
  {
    if ps == [] {
      ReadsNothing();
    } else {
      var init, ns := ps[..|ps| - 1], ps[|ps| - 1];
      ReadsSgr(init);
      ReadsNumbers([], ns, 0x6d);
      ReadsBoth(SgrBytes(init), SgrActs(init), Sequence([], ns, 0x6d), [Csi(ns, [], false, 0x6d)]);
      assert SgrActs(ps) == SgrActs(init) + [Csi(ns, [], false, 0x6d)];
    }
  }

  /** A cell that prints as itself: a printable scalar, or the tail of a pair. */
  predicate Printable(c: Cell) {
    IsTail(c) || (IsScalar(c.codepoint) && c.codepoint >= 0x20 && c.codepoint != 0x7f)
  }

  lemma ReadsCell(last: Pen, c: Cell)
    requires Printable(c)
    ensures Reads(CellBytes(last, c), CellActs(last, c))
  {
    var pen := CellPen(c);
    var b1, a1 := if pen != last then SgrBytes(PenParams(pen)) else [], if pen != last then SgrActs(PenParams(pen)) else [];
    var b2, a2 := if IsTail(c) then [] else CharBytes(c.codepoint), if IsTail(c) then [] else [Print(c.codepoint)];
    ReadsNothing();
    ReadsSgr(PenParams(pen));
    if !IsTail(c) {
      ReadsChar(c.codepoint);
    }
    hide Reads;
    ReadsBoth(b1, a1, b2, a2);
  }

  lemma {:induction false} ReadsRow(row: Row, n: nat)
    requires n <= |row| && forall k :: 0 <= k < n ==> Printable(row[k])
    ensures Reads(RowBytes(row, n), RowActs(row, n))
  {
    hide Reads, CellBytes, CellActs, PenAfter, Printable;
    if n == 0 {
      ReadsNothing();
    } else {
      ReadsRow(row, n - 1);
      ReadsCell(PenAfter(row, n - 1), row[n - 1]);
      ReadsBoth(RowBytes(row, n - 1), RowActs(row, n - 1),
                CellBytes(PenAfter(row, n - 1), row[n - 1]), CellActs(PenAfter(row, n - 1), row[n - 1]));
    }
  }

  lemma ReadsNextLine()
    ensures Reads(NextLineBytes(), NEXT_LINE)
  {
    ReadsByte(0x0d, Execute(0x0d));
    ReadsByte(0x0a, Execute(0x0a));
    ReadsSgr(RESET);
    hide Reads;
    ReadsBoth([0x0d], [Execute(0x0d)], [0x0a], [Execute(0x0a)]);
    assert [0x0d] + [0x0a] == CRLF;
    assert [Execute(0x0d)] + [Execute(0x0a)] == [Execute(0x0d), Execute(0x0a)];
    ReadsBoth(CRLF, [Execute(0x0d), Execute(0x0a)], SgrBytes(RESET), SgrActs(RESET));
    assert SgrActs(RESET) == [Csi([0], [], false, 0x6d)];
  }

  ghost predicate AllPrintable(g: Rows) {
    forall r, k :: 0 <= r < |g| && 0 <= k < |g[r]| ==> Printable(g[r][k])
  }

  lemma {:induction false} ReadsGrid(g: Rows, n: nat)
    requires n <= |g| && AllPrintable(g)
    ensures Reads(GridBytes(g, n), GridActs(g, n))
  {
    hide Reads, RowBytes, RowActs, NextLineBytes, NEXT_LINE, InkEnd, Printable;
    ReadsNothing();
    if n > 0 {
      var row := g[n - 1];
      var k := InkEnd(row);
      ReadsGrid(g, n - 1);
      ReadsRow(row, k);
      ReadsNextLine();
      ReadsLine(GridBytes(g, n - 1), GridActs(g, n - 1), row, k, n < |g|);
    }
  }

  /** A row and, unless it is the last, its new line. */
  lemma ReadsLine(bytes: seq<u8>, acts: seq<Action>, row: Row, k: nat, more: bool)
    requires k <= |row| && Reads(bytes, acts) && Reads(RowBytes(row, k), RowActs(row, k))
    ensures Reads(bytes + RowBytes(row, k) + (if more then NextLineBytes() else []),
                  acts + RowActs(row, k) + (if more then NEXT_LINE else []))
  {
    hide Reads, RowBytes, RowActs, NextLineBytes, NEXT_LINE;
    ReadsNothing();
    ReadsNextLine();
    ReadsBoth(bytes, acts, RowBytes(row, k), RowActs(row, k));
    ReadsBoth(bytes + RowBytes(row, k), acts + RowActs(row, k),
              if more then NextLineBytes() else [], if more then NEXT_LINE else []);
  }

  lemma ReadsHead(inAlt: bool)
    ensures Reads(HeadBytes(inAlt), HeadActs(inAlt))
  {
    ReadsNothing();
    ReadsSgr(RESET);
    ReadsNumbers([0x3f], [1049], 0x68);
    hide Reads;
    assert SgrActs(RESET) == [Csi([0], [], false, 0x6d)];
    ReadsBoth(if inAlt then PrivateBytes(1049, true) else [], if inAlt then [PrivateAct(1049, true)] else [],
              SgrBytes(RESET), SgrActs(RESET));
  }

  lemma ReadsFoot(row: u16, col: u16, visible: bool)
    ensures Reads(FootBytes(row, col, visible), FootActs(row, col, visible))
  {
    var at := [SatAdd16(row, 1), SatAdd16(col, 1)];
    ReadsNothing();
    ReadsNumbers([], at, 0x48);
    ReadsNumbers([0x3f], [25], 0x6c);
    hide Reads;
    ReadsBoth(Sequence([], at, 0x48), [Csi(at, [], false, 0x48)],
              if visible then [] else PrivateBytes(25, false), if visible then [] else [PrivateAct(25, false)]);
  }

  /** The printed screen parses to its actions, for every grid of printable
      cells, whatever their colours and attributes. */
  lemma ReadsRepaint(c: S.Core)
    requires AllPrintable(c.grid)
    ensures Reads(RepaintBytes(c), RepaintActs(c))
  {
    ReadsHead(c.inAlt);
    ReadsGrid(c.grid, |c.grid|);
    ReadsFoot(c.cursorRow, c.cursorCol, c.cursorVisible);
    hide Reads, HeadBytes, HeadActs, GridBytes, GridActs, FootBytes, FootActs;
    ReadsBoth(HeadBytes(c.inAlt), HeadActs(c.inAlt), GridBytes(c.grid, |c.grid|), GridActs(c.grid, |c.grid|));
    ReadsBoth(HeadBytes(c.inAlt) + GridBytes(c.grid, |c.grid|), HeadActs(c.inAlt) + GridActs(c.grid, |c.grid|),
              FootBytes(c.cursorRow, c.cursorCol, c.cursorVisible), FootActs(c.cursorRow, c.cursorCol, c.cursorVisible));
  }
}
