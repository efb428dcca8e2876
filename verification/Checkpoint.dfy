/** The versioned checkpoint: a screen's core as bytes, and back. */
module Checkpoint {
  import opened VtTypes
  import opened Grid
  import opened Flat
  import opened Bytes
  import opened ScreenSpec
  import F = Fnv

  const MAGIC: seq<u8> := [0x52, 0x31, 0x43, 0x4b]
  const VERSION: u16 := 1
  const HEADER := 22

  datatype Result<+T> = Ok(value: T) | Err(error: CodecError)

  // ---------------------------------------------------------------- colours and palettes

  function PutColor(c: Color): seq<u8> {
    match c
    case Default => [0]
    case Indexed(n) => [1, n]
    case Rgb(r, g, b) => [2, r, g, b]
  }

  function TakeColor(s: seq<u8>): Taken<Color> {
    var (tag, s1) :- Take8(s);
    if tag == 0 then Took(Default, s1)
    else if tag == 1 then
      var (n, s2) :- Take8(s1);
      Took(Indexed(n), s2)
    else if tag == 2 then
      var (r, s2) :- Take8(s1);
      var (g, s3) :- Take8(s2);
      var (b, s4) :- Take8(s3);
      Took(Rgb(r, g, b), s4)
    else Failed(BadColour)
  }

  lemma TakeColorPut(c: Color, rest: seq<u8>)
    ensures TakeColor(PutColor(c) + rest) == Took(c, rest)
  {
  }

  function PutRgb(c: Rgb8): seq<u8> {
    [c.r, c.g, c.b]
  }

  function TakeRgb(s: seq<u8>): Taken<Rgb8> {
    var (r, s1) :- Take8(s);
    var (g, s2) :- Take8(s1);
    var (b, s3) :- Take8(s2);
    Took(Rgb8(r, g, b), s3)
  }

  lemma TakeRgbPut(c: Rgb8, rest: seq<u8>)
    ensures TakeRgb(PutRgb(c) + rest) == Took(c, rest)
  {
  }

  function PutRgbs(cs: seq<Rgb8>): seq<u8> {
    if cs == [] then [] else PutRgb(cs[0]) + PutRgbs(cs[1..])
  }

  function TakeRgbs(s: seq<u8>, n: nat): (r: Taken<seq<Rgb8>>)
    ensures r.Took? ==> |r.value| == n
  {
    hide TakeRgb;
    if n == 0 then Took([], s)
    else
      var (c, s1) :- TakeRgb(s);
      var (cs, s2) :- TakeRgbs(s1, n - 1);
      Took([c] + cs, s2)
  }

  lemma {:induction false} TakeRgbsPut(cs: seq<Rgb8>, rest: seq<u8>)
    ensures TakeRgbs(PutRgbs(cs) + rest, |cs|) == Took(cs, rest)
  {
    if cs == [] {
      assert PutRgbs(cs) + rest == rest;
    } else {
      Assoc(PutRgb(cs[0]), PutRgbs(cs[1..]), rest);
      TakeRgbPut(cs[0], PutRgbs(cs[1..]) + rest);
      TakeRgbsPut(cs[1..], rest);
      assert [cs[0]] + cs[1..] == cs;
    }
  }

  function PutPalette(p: Palette): seq<u8> {
    PutRgbs(p.ansi + [p.foreground, p.background, p.cursor])
  }

  function TakePalette(s: seq<u8>): (r: Taken<Palette>)
    ensures r.Took? ==> WfPalette(r.value)
  {
    var (cs, s1) :- TakeRgbs(s, 19);
    Took(Palette(cs[..16], cs[16], cs[17], cs[18]), s1)
  }

  lemma TakePalettePut(p: Palette, rest: seq<u8>)
    requires WfPalette(p)
    ensures TakePalette(PutPalette(p) + rest) == Took(p, rest)
  {
    var cs := p.ansi + [p.foreground, p.background, p.cursor];
    TakeRgbsPut(cs, rest);
    assert cs[..16] == p.ansi;
  }

  // ---------------------------------------------------------------- cells

  function PutCell(c: Cell): seq<u8> {
    Put32(c.codepoint) + (Put16(c.attrs) + (PutColor(c.fg) + PutColor(c.bg)))
  }

  function TakeCell(s: seq<u8>): Taken<Cell> {
    var (cp, s1) :- Take32(s);
    var (attrs, s2) :- Take16(s1);
    var (fg, s3) :- TakeColor(s2);
    var (bg, s4) :- TakeColor(s3);
    Took(Cell(cp, fg, bg, attrs), s4)
  }

  lemma TakeCellPut(c: Cell, rest: seq<u8>)
    ensures TakeCell(PutCell(c) + rest) == Took(c, rest)
  {
    var s3 := PutColor(c.bg) + rest;
    var s2 := PutColor(c.fg) + s3;
    var s1 := Put16(c.attrs) + s2;
    Assoc(Put32(c.codepoint), Put16(c.attrs) + (PutColor(c.fg) + PutColor(c.bg)), rest);
    Assoc(Put16(c.attrs), PutColor(c.fg) + PutColor(c.bg), rest);
    Assoc(PutColor(c.fg), PutColor(c.bg), rest);
    assert PutCell(c) + rest == Put32(c.codepoint) + s1;
    Take32Put(c.codepoint, s1);
    Take16Put(c.attrs, s2);
    TakeColorPut(c.fg, s3);
    TakeColorPut(c.bg, rest);
  }

  function PutCells(cells: seq<Cell>): seq<u8> {
    if cells == [] then [] else PutCell(cells[0]) + PutCells(cells[1..])
  }

  function TakeCells(s: seq<u8>, n: nat): (r: Taken<seq<Cell>>)
    ensures r.Took? ==> |r.value| == n
  {
    hide TakeCell;
    if n == 0 then Took([], s)
    else
      match TakeCell(s)
      case Failed(e) => Failed(e)
      case Took(c, s1) => Prepended(c, TakeCells(s1, n - 1))
  }

  function Prepended(c: Cell, t: Taken<seq<Cell>>): (r: Taken<seq<Cell>>)
    ensures r.Took? <==> t.Took?
    ensures r.Took? ==> |r.value| == |t.value| + 1
  {
    match t
    case Failed(e) => Failed(e)
    case Took(cs, rest) => Took([c] + cs, rest)
  }

  lemma {:induction false} TakeCellsPut(cells: seq<Cell>, rest: seq<u8>)
    ensures TakeCells(PutCells(cells) + rest, |cells|) == Took(cells, rest)
  {
    hide PutCell, TakeCell;
    if cells == [] {
      assert PutCells(cells) + rest == rest;
    } else {
      Assoc(PutCell(cells[0]), PutCells(cells[1..]), rest);
      TakeCellPut(cells[0], PutCells(cells[1..]) + rest);
      TakeCellsPut(cells[1..], rest);
      assert [cells[0]] + cells[1..] == cells;
    }
  }

  lemma {:induction false} PutCellsPush(cells: seq<Cell>, c: Cell)
    ensures PutCells(cells + [c]) == PutCells(cells) + PutCell(c)
  {
    hide PutCell;
    if cells == [] {
      assert [] + [c] == [c];
    } else {
      assert (cells + [c])[1..] == cells[1..] + [c];
      PutCellsPush(cells[1..], c);
      Assoc(PutCell(cells[0]), PutCells(cells[1..]), PutCell(c));
    }
  }

  function PutSavedGrid(g: Option<seq<Cell>>): seq<u8> {
    match g
    case None => [0]
    case Some(cells) => [1] + PutCells(cells)
  }

  function TakeSavedGrid(s: seq<u8>, n: nat): (r: Taken<Option<seq<Cell>>>)
    ensures r.Took? && r.value.Some? ==> |r.value.value| == n
  {
    var (tag, s1) :- Take8(s);
    if tag == 0 then Took(None, s1)
    else if tag == 1 then
      var (cells, s2) :- TakeCells(s1, n);
      Took(Some(cells), s2)
    else Failed(BadSavedGrid)
  }

  lemma TakeSavedGridPut(g: Option<seq<Cell>>, n: nat, rest: seq<u8>)
    requires g.Some? ==> |g.value| == n
    ensures TakeSavedGrid(PutSavedGrid(g) + rest, n) == Took(g, rest)
  {
    match g
    case None =>
    case Some(cells) =>
      Assoc([1], PutCells(cells), rest);
      TakeCellsPut(cells, rest);
  }

  // ---------------------------------------------------------------- cursors and cluster

  function PutBool(b: bool): seq<u8> {
    [if b then 1 else 0]
  }

  function PutCursor(c: SavedCursor): seq<u8> {
    Put16(c.col) + (Put16(c.row) + (PutBool(c.pendingWrap) + PutPen(c.pen)))
  }

  function PutPen(p: Pen): seq<u8> {
    PutColor(p.fg) + (PutColor(p.bg) + Put16(p.attrs))
  }

  function TakePen(s: seq<u8>): Taken<Pen> {
    var (fg, s1) :- TakeColor(s);
    var (bg, s2) :- TakeColor(s1);
    var (attrs, s3) :- Take16(s2);
    Took(Pen(fg, bg, attrs), s3)
  }

  lemma TakePenPut(p: Pen, rest: seq<u8>)
    ensures TakePen(PutPen(p) + rest) == Took(p, rest)
  {
    hide Put16, Take16, PutColor, TakeColor;
    Assoc(PutColor(p.fg), PutColor(p.bg) + Put16(p.attrs), rest);
    Assoc(PutColor(p.bg), Put16(p.attrs), rest);
    TakeColorPut(p.fg, PutColor(p.bg) + (Put16(p.attrs) + rest));
    TakeColorPut(p.bg, Put16(p.attrs) + rest);
    Take16Put(p.attrs, rest);
  }

  function TakeCursor(s: seq<u8>): Taken<SavedCursor> {
    var (col, s1) :- Take16(s);
    var (row, s2) :- Take16(s1);
    var (wrap, s3) :- Take8(s2);
    var (pen, s4) :- TakePen(s3);
    Took(SavedCursor(col, row, wrap != 0, pen), s4)
  }

  lemma TakeCursorPut(c: SavedCursor, rest: seq<u8>)
    ensures TakeCursor(PutCursor(c) + rest) == Took(c, rest)
  {
    hide Put16, Take16, PutPen, TakePen;
    var s3 := PutPen(c.pen) + rest;
    var s2 := PutBool(c.pendingWrap) + s3;
    var s1 := Put16(c.row) + s2;
    Assoc(Put16(c.col), Put16(c.row) + (PutBool(c.pendingWrap) + PutPen(c.pen)), rest);
    Assoc(Put16(c.row), PutBool(c.pendingWrap) + PutPen(c.pen), rest);
    Assoc(PutBool(c.pendingWrap), PutPen(c.pen), rest);
    Take16Put(c.col, s1);
    Take16Put(c.row, s2);
    TakePenPut(c.pen, rest);
  }

  function PutSaved(o: Option<SavedCursor>): seq<u8> {
    match o
    case None => [0]
    case Some(c) => [1] + PutCursor(c)
  }

  function TakeSaved(s: seq<u8>): Taken<Option<SavedCursor>> {
    var (tag, s1) :- Take8(s);
    if tag == 0 then Took(None, s1)
    else if tag == 1 then
      var (c, s2) :- TakeCursor(s1);
      Took(Some(c), s2)
    else Failed(BadSavedCursor)
  }

  lemma TakeSavedPut(o: Option<SavedCursor>, rest: seq<u8>)
    ensures TakeSaved(PutSaved(o) + rest) == Took(o, rest)
  {
    hide PutCursor, TakeCursor;
    if o.Some? {
      Assoc([1], PutCursor(o.value), rest);
      TakeCursorPut(o.value, rest);
    }
  }

  function PutOpen(c: OpenCluster): seq<u8> {
    Put16(c.row) + (Put16(c.col) + [c.len, if c.afterZwj then 1 else 0, if c.lastWasRi then 1 else 0, c.width])
  }

  function TakeOpen(s: seq<u8>): Taken<OpenCluster> {
    var (row, s1) :- Take16(s);
    var (col, s2) :- Take16(s1);
    var (len, s3) :- Take8(s2);
    var (zwj, s4) :- Take8(s3);
    var (ri, s5) :- Take8(s4);
    var (width, s6) :- Take8(s5);
    Took(OpenCluster(row, col, len, zwj != 0, ri != 0, width), s6)
  }

  lemma TakeOpenPut(c: OpenCluster, rest: seq<u8>)
    ensures TakeOpen(PutOpen(c) + rest) == Took(c, rest)
  {
    hide Put16, Take16;
    var last := [c.len, if c.afterZwj then 1 else 0, if c.lastWasRi then 1 else 0, c.width];
    Assoc(Put16(c.row), Put16(c.col) + last, rest);
    Assoc(Put16(c.col), last, rest);
    Take16Put(c.row, Put16(c.col) + (last + rest));
    Take16Put(c.col, last + rest);
  }

  function PutCluster(o: Option<OpenCluster>): seq<u8> {
    match o
    case None => [0]
    case Some(c) => [1] + PutOpen(c)
  }

  function TakeCluster(s: seq<u8>): Taken<Option<OpenCluster>> {
    var (tag, s1) :- Take8(s);
    if tag == 0 then Took(None, s1)
    else if tag == 1 then
      var (c, s2) :- TakeOpen(s1);
      Took(Some(c), s2)
    else Failed(BadCluster)
  }

  lemma TakeClusterPut(o: Option<OpenCluster>, rest: seq<u8>)
    ensures TakeCluster(PutCluster(o) + rest) == Took(o, rest)
  {
    hide PutOpen, TakeOpen;
    if o.Some? {
      Assoc([1], PutOpen(o.value), rest);
      TakeOpenPut(o.value, rest);
    }
  }

  // ---------------------------------------------------------------- mode flags

  function Flags(bits: seq<bool>): nat {
    if bits == [] then 0 else (if bits[0] then 1 else 0) + 2 * Flags(bits[1..])
  }

  /** `f & (1 << k) != 0` */
  predicate Flag(f: nat, k: nat) {
    if k == 0 then f % 2 == 1 else Flag(f / 2, k - 1)
  }

  lemma LowBit(bit: nat, rest: nat)
    requires bit < 2
    ensures (bit + 2 * rest) % 2 == bit && (bit + 2 * rest) / 2 == rest
  {
  }

  lemma {:induction false} FlagOf(bits: seq<bool>, k: nat)
    requires k < |bits|
    ensures Flag(Flags(bits), k) == bits[k]
  {
    LowBit(if bits[0] then 1 else 0, Flags(bits[1..]));
    if k > 0 {
      FlagOf(bits[1..], k - 1);
      assert bits[1..][k - 1] == bits[k];
    }
  }

  lemma {:induction false} FlagsBelow(bits: seq<bool>)
    ensures Flags(bits) < F.Pow2(|bits|)
  {
    if bits != [] {
      FlagsBelow(bits[1..]);
    }
  }

  /** The twelve mode flags, lowest bit first. */
  function FlagBits(c: Core): (bits: seq<bool>)
    ensures |bits| == 12
  {
    [c.pendingWrap, c.autowrap, c.cursorVisible, c.inAlt, c.modes.appCursorKeys, c.modes.appKeypad,
     c.modes.bracketedPaste, c.modes.mouseX10, c.modes.mouseButton, c.modes.mouseAny, c.modes.mouseSgr,
     c.modes.focusEvents]
  }

  function BitsFlags(bits: seq<bool>): (f: u32)
    requires |bits| == 12
    ensures f == Flags(bits)
  {
    FlagsBelow(bits);
    assert F.Pow2(12) == 4096 by {
      F.Pow2Add(6, 6);
      F.Pow2Add(3, 3);
      assert F.Pow2(3) == 8;
    }
    Flags(bits)
  }

  function CoreFlags(c: Core): u32 {
    BitsFlags(FlagBits(c))
  }

  function FlagModes(f: nat): Modes {
    Modes(Flag(f, 4), Flag(f, 5), Flag(f, 6), Flag(f, 7), Flag(f, 8), Flag(f, 9), Flag(f, 10), Flag(f, 11))
  }

  lemma FlagAt(c: Core, k: nat)
    requires k < 12
    ensures Flag(CoreFlags(c), k) == FlagBits(c)[k]
  {
    FlagOf(FlagBits(c), k);
  }

  lemma FlagsRead(c: Core)
    ensures var f := CoreFlags(c);
            && Flag(f, 0) == c.pendingWrap && Flag(f, 1) == c.autowrap
            && Flag(f, 2) == c.cursorVisible && Flag(f, 3) == c.inAlt && FlagModes(f) == c.modes
  {
    hide Flag, CoreFlags;
    FlagAt(c, 0); FlagAt(c, 1); FlagAt(c, 2); FlagAt(c, 3); FlagAt(c, 4); FlagAt(c, 5);
    FlagAt(c, 6); FlagAt(c, 7); FlagAt(c, 8); FlagAt(c, 9); FlagAt(c, 10); FlagAt(c, 11);
  }

  // ---------------------------------------------------------------- the payload

  /** Cursor, scroll region, pen attributes and mode flags. */
  datatype Place = Place(col: u16, row: u16, top: u16, bottom: u16, attrs: u16, flags: u32)

  function PutPlace(p: Place): seq<u8> {
    Put16(p.col) + (Put16(p.row) + (Put16(p.top) + (Put16(p.bottom) + (Put16(p.attrs) + Put32(p.flags)))))
  }

  function TakePlace(s: seq<u8>): Taken<Place> {
    var (col, s1) :- Take16(s);
    var (row, s2) :- Take16(s1);
    var (top, s3) :- Take16(s2);
    var (bottom, s4) :- Take16(s3);
    var (attrs, s5) :- Take16(s4);
    var (flags, s6) :- Take32(s5);
    Took(Place(col, row, top, bottom, attrs, flags), s6)
  }

  lemma TakePlacePut(p: Place, rest: seq<u8>)
    ensures TakePlace(PutPlace(p) + rest) == Took(p, rest)
  {
    hide Put16, Take16, Put32, Take32;
    var a5 := Put16(p.attrs) + Put32(p.flags);
    var a4 := Put16(p.bottom) + a5;
    var a3 := Put16(p.top) + a4;
    var a2 := Put16(p.row) + a3;
    Assoc(Put16(p.col), a2, rest);
    Assoc(Put16(p.row), a3, rest);
    Assoc(Put16(p.top), a4, rest);
    Assoc(Put16(p.bottom), a5, rest);
    Assoc(Put16(p.attrs), Put32(p.flags), rest);
    Take16Put(p.col, a2 + rest);
    Take16Put(p.row, a3 + rest);
    Take16Put(p.top, a4 + rest);
    Take16Put(p.bottom, a5 + rest);
    Take16Put(p.attrs, Put32(p.flags) + rest);
    Take32Put(p.flags, rest);
  }

  /** Pen colours, palette and the count of truncated clusters. */
  datatype Ink = Ink(fg: Color, bg: Color, palette: Palette, truncated: u32)

  function PutInk(i: Ink): seq<u8> {
    PutColor(i.fg) + (PutColor(i.bg) + (PutPalette(i.palette) + Put32(i.truncated)))
  }

  function TakeInk(s: seq<u8>): (r: Taken<Ink>)
    ensures r.Took? ==> WfPalette(r.value.palette)
  {
    var (fg, s1) :- TakeColor(s);
    var (bg, s2) :- TakeColor(s1);
    var (palette, s3) :- TakePalette(s2);
    var (truncated, s4) :- Take32(s3);
    Took(Ink(fg, bg, palette, truncated), s4)
  }

  lemma TakeInkPut(i: Ink, rest: seq<u8>)
    requires WfPalette(i.palette)
    ensures TakeInk(PutInk(i) + rest) == Took(i, rest)
  {
    hide PutColor, TakeColor, PutPalette, TakePalette, Put32, Take32;
    var a3 := PutPalette(i.palette) + Put32(i.truncated);
    var a2 := PutColor(i.bg) + a3;
    Assoc(PutColor(i.fg), a2, rest);
    Assoc(PutColor(i.bg), a3, rest);
    Assoc(PutPalette(i.palette), Put32(i.truncated), rest);
    TakeColorPut(i.fg, a2 + rest);
    TakeColorPut(i.bg, a3 + rest);
    TakePalettePut(i.palette, Put32(i.truncated) + rest);
    Take32Put(i.truncated, rest);
  }

  /** Saved cursors and the open cluster. */
  datatype Pending = Pending(saved: Option<SavedCursor>, alt: Option<SavedCursor>, cluster: Option<OpenCluster>)

  function PutPending(p: Pending): seq<u8> {
    PutSaved(p.saved) + (PutSaved(p.alt) + PutCluster(p.cluster))
  }

  function TakePending(s: seq<u8>): Taken<Pending> {
    var (saved, s1) :- TakeSaved(s);
    var (alt, s2) :- TakeSaved(s1);
    var (cluster, s3) :- TakeCluster(s2);
    Took(Pending(saved, alt, cluster), s3)
  }

  lemma TakePendingPut(p: Pending, rest: seq<u8>)
    ensures TakePending(PutPending(p) + rest) == Took(p, rest)
  {
    hide PutSaved, TakeSaved, PutCluster, TakeCluster;
    Assoc(PutSaved(p.saved), PutSaved(p.alt) + PutCluster(p.cluster), rest);
    Assoc(PutSaved(p.alt), PutCluster(p.cluster), rest);
    TakeSavedPut(p.saved, PutSaved(p.alt) + (PutCluster(p.cluster) + rest));
    TakeSavedPut(p.alt, PutCluster(p.cluster) + rest);
    TakeClusterPut(p.cluster, rest);
  }

  /** Everything a checkpoint records, with flat grids. */
  datatype Record = Record(
    cols: u16,
    rows: u16,
    place: Place,
    ink: Ink,
    cells: seq<Cell>,
    savedGrid: Option<seq<Cell>>,
    pending: Pending)

  predicate WfRecord(r: Record) {
    && r.cols > 0 && r.rows > 0 && WfPalette(r.ink.palette)
    && |r.cells| == Area(r.cols, r.rows)
    && (r.savedGrid.Some? ==> |r.savedGrid.value| == Area(r.cols, r.rows))
  }

  function PutRecord(r: Record): seq<u8> {
    Put16(r.cols) + (Put16(r.rows) + (PutPlace(r.place) + (PutInk(r.ink) +
      (PutCells(r.cells) + (PutSavedGrid(r.savedGrid) + PutPending(r.pending))))))
  }

  function TakeRecord(s: seq<u8>): (t: Taken<Record>)
    ensures t.Took? ==> WfRecord(t.value)
  {
    var (cols, s1) :- Take16(s);
    var (rows, s2) :- Take16(s1);
    if cols == 0 || rows == 0 then Failed(EmptyGrid)
    else
      var (place, s3) :- TakePlace(s2);
      var (ink, s4) :- TakeInk(s3);
      var (cells, s5) :- TakeCells(s4, Area(cols, rows));
      var (savedGrid, s6) :- TakeSavedGrid(s5, Area(cols, rows));
      var (pending, s7) :- TakePending(s6);
      Took(Record(cols, rows, place, ink, cells, savedGrid, pending), s7)
  }

  lemma TakeRecordPut(r: Record, rest: seq<u8>)
    requires WfRecord(r)
    ensures TakeRecord(PutRecord(r) + rest) == Took(r, rest)
  {
    hide Put16, Take16, PutPlace, TakePlace, PutInk, TakeInk, PutCells, TakeCells;
    hide PutSavedGrid, TakeSavedGrid, PutPending, TakePending, Area;
    var a6 := PutSavedGrid(r.savedGrid) + PutPending(r.pending);
    var a5 := PutCells(r.cells) + a6;
    var a4 := PutInk(r.ink) + a5;
    var a3 := PutPlace(r.place) + a4;
    Assoc(Put16(r.cols), Put16(r.rows) + a3, rest);
    Assoc(Put16(r.rows), a3, rest);
    Assoc(PutPlace(r.place), a4, rest);
    Assoc(PutInk(r.ink), a5, rest);
    Assoc(PutCells(r.cells), a6, rest);
    Assoc(PutSavedGrid(r.savedGrid), PutPending(r.pending), rest);
    Take16Put(r.cols, Put16(r.rows) + (a3 + rest));
    Take16Put(r.rows, a3 + rest);
    TakePlacePut(r.place, a4 + rest);
    TakeInkPut(r.ink, a5 + rest);
    TakeCellsPut(r.cells, a6 + rest);
    TakeSavedGridPut(r.savedGrid, Area(r.cols, r.rows), PutPending(r.pending) + rest);
    TakePendingPut(r.pending, rest);
  }

  // ---------------------------------------------------------------- record and core

  ghost function FlatSaved(g: Option<Rows>): Option<seq<Cell>> {
    if g.Some? then Some(Flatten(g.value)) else None
  }

  /** The record of a core. */
  ghost function RecordOf(c: Core): Record {
    Record(c.cols, c.rows,
           Place(c.cursorCol, c.cursorRow, c.scrollTop, c.scrollBottom, c.pen.attrs, CoreFlags(c)),
           Ink(c.pen.fg, c.pen.bg, c.palette, c.truncated),
           Flatten(c.grid), FlatSaved(c.savedGrid),
           Pending(c.savedCursor, c.altCursor, c.cluster))
  }

  /** The core a record restores; only the cursor is clamped. */
  function CoreOf(r: Record): Core
    requires WfRecord(r)
  {
    var p, f := r.place, r.place.flags;
    Core(r.cols, r.rows, RowsOf(r.cells, r.cols, r.rows),
         Min(p.col, r.cols - 1), Min(p.row, r.rows - 1), Flag(f, 2), Flag(f, 0), Flag(f, 1), p.top, p.bottom,
         r.ink.palette, Pen(r.ink.fg, r.ink.bg, p.attrs), r.pending.saved, r.pending.alt,
         SavedRows(r.savedGrid, r.cols, r.rows), Flag(f, 3), r.pending.cluster, r.ink.truncated, FlagModes(f))
  }

  lemma CoreOfRecord(c: Core)
    requires Wf(c)
    ensures WfRecord(RecordOf(c)) && CoreOf(RecordOf(c)) == c
  {
    hide CoreFlags, Flag, FlagModes;
    FlagsRead(c);
    FlattenLength(c.grid, c.cols);
    RowsOfFlatten(c.grid, c.cols);
    if c.savedGrid.Some? {
      FlattenLength(c.savedGrid.value, c.cols);
      RowsOfFlatten(c.savedGrid.value, c.cols);
    }
  }

  // ---------------------------------------------------------------- the blob

  /** The blob before its hash is stored. */
  function Unhashed(r: Record, offset: u64): seq<u8> {
    MAGIC + Put16(VERSION) + Put64(offset) + Put64(0) + PutRecord(r)
  }

  function WithHash(blob: seq<u8>, hash: u64): (b: seq<u8>)
    requires |blob| >= HEADER
    ensures |b| == |blob|
  {
    blob[..F.HASH_OFF] + Put64(hash) + blob[HEADER..]
  }

  function Seal(blob: seq<u8>): seq<u8>
    requires |blob| >= HEADER
  {
    WithHash(blob, F.Digest(blob, |blob|))
  }

  ghost function Export(c: Core, offset: u64): seq<u8> {
    Seal(Unhashed(RecordOf(c), offset))
  }

  /** Header checks, in the order the importer makes them. */
  function CheckHeader(bytes: seq<u8>): Option<CodecError> {
    if |bytes| < HEADER then Some(Truncated)
    else if bytes[..4] != MAGIC then Some(BadMagic)
    else if Get16(bytes[4..]) != VERSION then Some(BadVersion)
    else if Get64(bytes[14..]) != F.Digest(bytes, |bytes|) then Some(HashMismatch)
    else None
  }

  function ImportRecord(bytes: seq<u8>): (r: Result<(u64, Record)>)
    ensures r.Ok? ==> WfRecord(r.value.1)
  {
    var bad := CheckHeader(bytes);
    if bad.Some? then Err(bad.value)
    else
      match TakeRecord(bytes[HEADER..])
      case Failed(e) => Err(e)
      case Took(r, rest) => if rest != [] then Err(Trailing) else Ok((Get64(bytes[6..]), r))
  }

  function Import(bytes: seq<u8>): Result<(u64, Core)> {
    match ImportRecord(bytes)
    case Err(e) => Err(e)
    case Ok((offset, r)) => Ok((offset, CoreOf(r)))
  }

  /** What an import leaves to its caller to trust: of any accepted blob the
      core is in shape exactly when its region, its alternate screen and its
      cluster are. */
  lemma ImportedShape(bytes: seq<u8>)
    requires Import(bytes).Ok?
    ensures var c := Import(bytes).value.1;
            Wf(c) <==> c.scrollTop <= c.scrollBottom < c.rows && (c.inAlt <==> c.savedGrid.Some?)
                       && (c.cluster.Some? ==> c.cluster.value.row < c.rows && c.cluster.value.col < c.cols)
  {
    RecordShape(ImportRecord(bytes).value.1);
    hide ImportRecord, CoreOf, GridsOk;
  }

  lemma RecordShape(r: Record)
    requires WfRecord(r)
    ensures var c := CoreOf(r);
            GridsOk(c.grid, c.savedGrid, c.cols, c.rows) && c.cols > 0 && c.rows > 0
            && c.cursorCol < c.cols && c.cursorRow < c.rows && WfPalette(c.palette)
  {
    hide Flag, FlagModes;
  }

  lemma Layout(m: seq<u8>, v: seq<u8>, o: seq<u8>, z: seq<u8>, p: seq<u8>, h: seq<u8>)
    requires |m| == 4 && |v| == 2 && |o| == 8 && |z| == 8 && |h| == 8
    ensures var u := m + v + o + z + p;
            var b := u[..14] + h + u[22..];
            && |u| == |b| && u[22..] == p && b[..4] == m && b[4..] == v + b[6..]
            && b[6..] == o + b[14..] && b[14..] == h + b[22..] && b[22..] == p
            && forall i :: 0 <= i < |u| && !F.InHashField(i) ==> u[i] == b[i]
  {
    var u := m + v + o + z + p;
    var b := u[..14] + h + u[22..];
    assert u[22..] == p;
    assert u[..14] == m + v + o;
    assert b == m + v + o + h + p;
  }

  /** Where the fields of a sealed blob are. */
  lemma SealedFields(r: Record, offset: u64)
    ensures var u := Unhashed(r, offset);
            var b := Seal(u);
            && |u| >= HEADER && b[..4] == MAGIC && b[4..] == Put16(VERSION) + b[6..]
            && b[6..] == Put64(offset) + b[14..]
            && b[14..] == Put64(F.Digest(u, |u|)) + b[HEADER..]
            && b[HEADER..] == PutRecord(r)
            && F.Digest(b, |b|) == F.Digest(u, |u|)
  {
    hide PutRecord, F.Digest, Put16, Put64;
    var u := Unhashed(r, offset);
    Layout(MAGIC, Put16(VERSION), Put64(offset), Put64(0), PutRecord(r), Put64(F.Digest(u, |u|)));
    F.DigestMasks(u, Seal(u), |u|);
  }

  lemma ImportSealed(r: Record, offset: u64)
    requires WfRecord(r)
    ensures ImportRecord(Seal(Unhashed(r, offset))) == Ok((offset, r))
  {
    var u := Unhashed(r, offset);
    var b := Seal(u);
    SealedFields(r, offset);
    hide PutRecord, TakeRecord, WfRecord, Seal, Unhashed, F.Digest, Put16, Put64, Get16, Get64;
    Get16Put(VERSION, b[6..]);
    Get64Put(offset, b[14..]);
    Get64Put(F.Digest(u, |u|), b[HEADER..]);
    assert CheckHeader(b) == None;
    TakeRecordPut(r, []);
    assert PutRecord(r) + [] == PutRecord(r);
  }

  /** Importing an export gives back the offset and the whole core. */
  lemma ImportExport(c: Core, offset: u64)
    requires Wf(c)
    ensures Import(Export(c, offset)) == Ok((offset, c))
  {
    CoreOfRecord(c);
    ImportSealed(RecordOf(c), offset);
  }

  /** Whatever blob is accepted, changing any one byte of it gets it rejected:
      inside the hash field the stored hash changes and the digest does not,
      outside it the digest changes and the stored hash does not. */
  lemma CorruptionRejected(bytes: seq<u8>, k: nat, b: u8)
    requires k < |bytes| && b != bytes[k]
    requires Import(bytes).Ok?
    ensures Import(bytes[k := b]).Err?
  {
    var other := bytes[k := b];
    if F.InHashField(k) {
      F.DigestMasks(bytes, other, |bytes|);
      Get64Injective(bytes[14..], other[14..], k - 14);
    } else {
      F.DigestDiffers(bytes, other, k, |bytes|);
      assert other[14..][..8] == bytes[14..][..8];
      Get64Prefix(bytes[14..], other[14..]);
    }
  }

  lemma Get64Injective(s: seq<u8>, t: seq<u8>, k: nat)
    requires |s| == |t| >= 8 && k < 8 && s[k] != t[k]
    ensures Get64(s) != Get64(t)
  {
    if Get64(s) == Get64(t) {
      Get64Same(s, t);
    }
  }

  lemma Get64Prefix(s: seq<u8>, t: seq<u8>)
    requires |s| >= 8 && |t| >= 8 && s[..8] == t[..8]
    ensures Get64(s) == Get64(t)
  {
    assert forall i :: 0 <= i < 8 ==> s[i] == s[..8][i] && t[i] == t[..8][i];
  }

  /** In particular every single-byte corruption of an export. */
  lemma ExportCorruptionRejected(c: Core, offset: u64, k: nat, b: u8)
    requires Wf(c) && k < |Export(c, offset)| && b != Export(c, offset)[k]
    ensures Import(Export(c, offset)[k := b]).Err?
  {
    ImportExport(c, offset);
    CorruptionRejected(Export(c, offset), k, b);
  }

  // ---------------------------------------------------------------- writing and reading with loops

  method WriteCells(cells: seq<Cell>) returns (out: seq<u8>)
    ensures out == PutCells(cells)
  {
    hide PutCell;
    out := [];
    for i := 0 to |cells|
      invariant out == PutCells(cells[..i])
    {
      PutCellsPush(cells[..i], cells[i]);
      assert cells[..i + 1] == cells[..i] + [cells[i]];
      out := out + PutCell(cells[i]);
    }
    assert cells[..|cells|] == cells;
  }

  method ReadCells(s: seq<u8>, n: nat) returns (t: Taken<seq<Cell>>)
    ensures t == TakeCells(s, n)
  {
    hide TakeCell;
    var cells: seq<Cell>, rest := [], s;
    var i := 0;
    OntoNone(TakeCells(s, n));
    while i < n
      invariant 0 <= i <= n
      invariant TakeCells(s, n) == Onto(cells, TakeCells(rest, n - i))
    {
      OntoOnto(cells, rest, n - i);
      var one := TakeCell(rest);
      if one.Failed? {
        return Failed(one.error);
      }
      cells, rest, i := cells + [one.value], one.rest, i + 1;
    }
    assert cells + [] == cells;
    return Took(cells, rest);
  }

  /** Cells read before the ones in `t`. */
  function Onto(cells: seq<Cell>, t: Taken<seq<Cell>>): Taken<seq<Cell>> {
    match t
    case Failed(e) => Failed(e)
    case Took(cs, rest) => Took(cells + cs, rest)
  }

  lemma OntoNone(t: Taken<seq<Cell>>)
    ensures Onto([], t) == t
  {
    if t.Took? {
      assert [] + t.value == t.value;
    }
  }

  lemma OntoOnto(cells: seq<Cell>, s: seq<u8>, n: nat)
    requires n > 0
    ensures var one := TakeCell(s);
            Onto(cells, TakeCells(s, n)) ==
            if one.Failed? then Failed(one.error) else Onto(cells + [one.value], TakeCells(one.rest, n - 1))
  {
    hide TakeCell;
    var one := TakeCell(s);
    if one.Took? {
      var more := TakeCells(one.rest, n - 1);
      if more.Took? {
        assert cells + ([one.value] + more.value) == cells + [one.value] + more.value;
      }
    }
  }

  /** The payload, field by field, as it is appended. */
  method WriteRecord(r: Record) returns (out: seq<u8>)
    ensures out == PutRecord(r)
  {
    hide Put16, PutPlace, PutInk, PutCells, PutPending;
    out := Put16(r.cols);
    out := out + Put16(r.rows);
    out := out + PutPlace(r.place);
    out := out + PutInk(r.ink);
    var cells := WriteCells(r.cells);
    out := out + cells;
    var saved: seq<u8> := [0];
    if r.savedGrid.Some? {
      var more := WriteCells(r.savedGrid.value);
      saved := [1] + more;
    }
    out := out + saved;
    out := out + PutPending(r.pending);
    LeftToRight(Put16(r.cols), Put16(r.rows), PutPlace(r.place), PutInk(r.ink), cells, saved, PutPending(r.pending));
  }

  lemma LeftToRight(a: seq<u8>, b: seq<u8>, c: seq<u8>, d: seq<u8>, e: seq<u8>, f: seq<u8>, g: seq<u8>)
    ensures a + b + c + d + e + f + g == a + (b + (c + (d + (e + (f + g)))))
  {
    Assoc(a + b + c + d + e, f, g);
    Assoc(a + b + c + d, e, f + g);
    Assoc(a + b + c, d, e + (f + g));
    Assoc(a + b, c, d + (e + (f + g)));
    Assoc(a, b, c + (d + (e + (f + g))));
  }

  /** Reads the payload; stops at the first field that is cut short or bad. */
  method ReadRecord(s: seq<u8>) returns (t: Taken<Record>)
    ensures t == TakeRecord(s)
  {
    hide Take16, TakePlace, TakeInk, TakeCells, TakePending;
    var cols :- Take16(s);
    var rows :- Take16(cols.1);
    if cols.0 == 0 || rows.0 == 0 {
      return Failed(EmptyGrid);
    }
    var n := Area(cols.0, rows.0);
    var place :- TakePlace(rows.1);
    var ink :- TakeInk(place.1);
    var cells :- ReadCells(ink.1, n);
    var tag :- Take8(cells.1);
    var savedGrid: Option<seq<Cell>>, rest := None, tag.1;
    if tag.0 == 1 {
      var more :- ReadCells(rest, n);
      savedGrid, rest := Some(more.0), more.1;
    } else if tag.0 != 0 {
      return Failed(BadSavedGrid);
    }
    var pending :- TakePending(rest);
    return Took(Record(cols.0, rows.0, place.0, ink.0, cells.0, savedGrid, pending.0), pending.1);
  }

  /** The blob of a record: header, payload, then the hash over both. */
  method Write(r: Record, offset: u64) returns (blob: seq<u8>)
    ensures blob == Seal(Unhashed(r, offset))
  {
    hide PutRecord, F.Digest, Put64, Put16;
    var payload := WriteRecord(r);
    blob := MAGIC + Put16(VERSION) + Put64(offset) + Put64(0) + payload;
    var hash := F.Hash(blob);
    blob := WithHash(blob, hash);
  }

  method Read(bytes: seq<u8>) returns (r: Result<(u64, Record)>)
    ensures r == ImportRecord(bytes)
  {
    hide TakeRecord, F.Digest;
    if |bytes| < HEADER {
      return Err(Truncated);
    }
    if bytes[..4] != MAGIC {
      return Err(BadMagic);
    }
    if Get16(bytes[4..]) != VERSION {
      return Err(BadVersion);
    }
    var hash := F.Hash(bytes);
    if Get64(bytes[14..]) != hash {
      return Err(HashMismatch);
    }
    var t := ReadRecord(bytes[HEADER..]);
    match t
    case Failed(e) => return Err(e);
    case Took(rec, rest) =>
      if rest != [] {
        return Err(Trailing);
      }
      return Ok((Get64(bytes[6..]), rec));
  }
}
