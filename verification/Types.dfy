/** Fixed-width integers, colours, cells and the other plain values that the
    emulator's parser, screen and checkpoint codec share. */
module VtTypes {

  type u8 = x: int | 0 <= x < 0x100
  type u16 = x: int | 0 <= x < 0x1_0000
  type u32 = x: int | 0 <= x < 0x1_0000_0000
  type u64 = x: int | 0 <= x < 0x1_0000_0000_0000_0000

  const U32_MAX: u32 := 0xFFFF_FFFF
  const U64_MAX: u64 := 0xFFFF_FFFF_FFFF_FFFF

  datatype Option<+T> = None | Some(value: T)

  function Min(a: int, b: int): int {
    if a <= b then a else b
  }

  function Max(a: int, b: int): int {
    if a <= b then b else a
  }

  /** `saturating_sub` on any unsigned width. */
  function SatSub(a: nat, b: nat): nat {
    if a > b then a - b else 0
  }

  function SatAdd16(a: u16, b: u16): u16 {
    if a + b > 0xFFFF then 0xFFFF else a + b
  }

  function SatAdd32(a: u32, b: u32): u32 {
    if a + b > U32_MAX then U32_MAX else a + b
  }

  function SatAdd64(a: u64, b: u64): u64 {
    if a + b > U64_MAX then U64_MAX else a + b
  }

  datatype Color = Default | Indexed(n: u8) | Rgb(r: u8, g: u8, b: u8)

  datatype Rgb8 = Rgb8(r: u8, g: u8, b: u8)

  /** `ansi` has sixteen entries; see `WfPalette`. */
  datatype Palette = Palette(ansi: seq<Rgb8>, foreground: Rgb8, background: Rgb8, cursor: Rgb8)

  predicate WfPalette(p: Palette) {
    |p.ansi| == 16
  }

  /** `attrs`: bit 0 bold, 1 underline, 2 inverse, 3 wide lead, 4 wide tail. */
  datatype Cell = Cell(codepoint: u32, fg: Color, bg: Color, attrs: u16)

  const WIDE_LEAD: u16 := 8
  const WIDE_TAIL: u16 := 16

  predicate IsLead(c: Cell) {
    c.attrs / 8 % 2 == 1
  }

  predicate IsTail(c: Cell) {
    c.attrs / 16 % 2 == 1
  }

  /** The bold, underline and inverse bits: `attrs & 0b111`. */
  function Sgr(attrs: u16): u16 {
    attrs % 8
  }

  function Blank(bg: Color): Cell {
    Cell(32, Default, bg, 0)
  }

  datatype Pen = Pen(fg: Color, bg: Color, attrs: u16)

  const PLAIN := Pen(Default, Default, 0)

  datatype SavedCursor = SavedCursor(col: u16, row: u16, pendingWrap: bool, pen: Pen)

  datatype OpenCluster = OpenCluster(row: u16, col: u16, len: u8, afterZwj: bool, lastWasRi: bool, width: u8)

  datatype Modes = Modes(
    appCursorKeys: bool,
    appKeypad: bool,
    bracketedPaste: bool,
    mouseX10: bool,
    mouseButton: bool,
    mouseAny: bool,
    mouseSgr: bool,
    focusEvents: bool)

  /** What is compiled into the engine: the two Unicode width tables (as
      predicates on code points), how a colour becomes RGBA under a palette
      (foreground when the flag is set), and the default palette. */
  datatype Tables = Tables(
    wide: int -> bool,
    mark: int -> bool,
    rgba: (Palette, Color, bool) -> u32,
    palette: Palette)

  /** A cell as the host paints it. */
  datatype PodCell = PodCell(codepoint: u32, fg: u32, bg: u32, attrs: u16)

  datatype PodGrid = PodGrid(
    cols: u16,
    rows: u16,
    cursorCol: u16,
    cursorRow: u16,
    cursorVisible: bool,
    fullDamage: bool,
    damageRow0: u16,
    damageRow1: u16,
    defaultFg: u32,
    defaultBg: u32,
    truncated: u32,
    repliesDropped: u32,
    cells: seq<PodCell>)

  function Pod(t: Tables, p: Palette, c: Cell): PodCell {
    PodCell(c.codepoint, t.rgba(p, c.fg, true), t.rgba(p, c.bg, false), c.attrs)
  }

  function PodRow(t: Tables, p: Palette, row: seq<Cell>): (r: seq<PodCell>)
    ensures |r| == |row|
  {
    seq(|row|, i requires 0 <= i < |row| => Pod(t, p, row[i]))
  }

  /** A Unicode scalar value, the range of Rust's `char`. */
  predicate IsScalar(c: int) {
    0 <= c < 0xD800 || 0xE000 <= c <= 0x10FFFF
  }

  const REPLACEMENT: u32 := 0xFFFD

  /** What the parser hands to the screen. */
  datatype Action =
    | Print(c: u32)
    | Execute(b: u8)
    | Csi(params: seq<u16>, inters: seq<u8>, ignore: bool, fin: u8)
    | Esc(escInters: seq<u8>, final: u8)
    | Osc(payload: seq<u8>)
}
