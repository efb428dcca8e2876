/** Renditions, modes, the alternate screen, sizes and answers: what each
    request sets, told field by field. */
module ModeLaws {
  import opened VtTypes
  import opened Grid
  import opened ScreenSpec
  import opened CursorLaws
  import opened Digits
  import L = ControlLaws

  // ---------------------------------------------------------------- renditions

  predicate Bold(attrs: u16) {
    attrs % 2 == 1
  }

  predicate Underlined(attrs: u16) {
    attrs / 2 % 2 == 1
  }

  predicate Inverse(attrs: u16) {
    attrs / 4 % 2 == 1
  }

  function Rest(attrs: u16): int {
    attrs / 8
  }

  /** One rendition on its own: which colour it sets, and which of bold,
      underline and inverse it turns on or off, the other bits staying. */
  ghost predicate Rendered(was: Pen, n: u16, now: Pen) {
    && now.fg == (if n == 0 || n == 39 then Default else if 30 <= n <= 37 then Indexed(n - 30)
                  else if 90 <= n <= 97 then Indexed(n - 82) else was.fg)
    && now.bg == (if n == 0 || n == 49 then Default else if 40 <= n <= 47 then Indexed(n - 40)
                  else if 100 <= n <= 107 then Indexed(n - 92) else was.bg)
    && (Bold(now.attrs) <==> n == 1 || (Bold(was.attrs) && n != 0 && n != 22))
    && (Underlined(now.attrs) <==> n == 4 || (Underlined(was.attrs) && n != 0 && n != 24))
    && (Inverse(now.attrs) <==> n == 7 || (Inverse(was.attrs) && n != 0 && n != 27))
    && Rest(now.attrs) == (if n == 0 then 0 else Rest(was.attrs))
  }

  lemma RenditionSets(t: Tables, c: Core, n: u16)
    requires Wf(c) && n != 38 && n != 48
    ensures var d := StepCore(t, c, Control(0x6d, [n])); d == c.(pen := d.pen) && Rendered(c.pen, n, d.pen)
  {
    SgrStep(t, c, [n]);
    assert SgrFrom(c.pen, [n], 0) == SgrFrom(SgrOne(c.pen, n), [n], 1) == SgrOne(c.pen, n);
    RenderedOne(c.pen, n);
    hide StepCore, SgrFrom, SgrOne, Wf, Rendered;
  }

  lemma RenderedOne(pen: Pen, n: u16)
    requires n != 38 && n != 48
    ensures Rendered(pen, n, SgrOne(pen, n))
  {
    BitsOn(pen.attrs);
    BitsOff(pen.attrs);
    assert !Bold(0) && !Underlined(0) && !Inverse(0) && Rest(0) == 0;
    hide SetBit, ClearBit, Bold, Underlined, Inverse, Rest;
  }

  lemma SgrStep(t: Tables, c: Core, params: seq<u16>)
    requires Wf(c)
    ensures StepCore(t, c, Control(0x6d, params)) == c.(pen := ApplySgr(c.pen, params))
  {
    hide Wf, ApplySgr;
  }

  predicate SameBut(a: u16, b: u16, bold: bool, underlined: bool, inverse: bool) {
    && (bold || (Bold(a) <==> Bold(b))) && (underlined || (Underlined(a) <==> Underlined(b)))
    && (inverse || (Inverse(a) <==> Inverse(b))) && Rest(a) == Rest(b)
  }

  lemma BitsOn(a: u16)
    ensures Bold(SetBit(a, 1)) && SameBut(SetBit(a, 1), a, true, false, false)
    ensures Underlined(SetBit(a, 2)) && SameBut(SetBit(a, 2), a, false, true, false)
    ensures Inverse(SetBit(a, 4)) && SameBut(SetBit(a, 4), a, false, false, true)
  {
    SetOne(a);
    Halves(SetBit(a, 1), a);
    Halves(SetBit(a, 2), a);
    hide SetBit;
  }

  lemma BitsOff(a: u16)
    ensures !Bold(ClearBit(a, 1)) && SameBut(ClearBit(a, 1), a, true, false, false)
    ensures !Underlined(ClearBit(a, 2)) && SameBut(ClearBit(a, 2), a, false, true, false)
    ensures !Inverse(ClearBit(a, 4)) && SameBut(ClearBit(a, 4), a, false, false, true)
  {
    ClearOne(a);
    Halves(ClearBit(a, 1), a);
    Halves(ClearBit(a, 2), a);
    hide ClearBit;
  }

  lemma SetOne(a: u16)
    ensures var b := SetBit(a, 1); b % 2 == 1 && b / 2 == a / 2
    ensures var b := SetBit(a, 2); b % 2 == a % 2 && b / 2 % 2 == 1 && b / 4 == a / 4
    ensures var b := SetBit(a, 4); b % 2 == a % 2 && b / 2 % 2 == a / 2 % 2 && b / 4 % 2 == 1 && b / 8 == a / 8
  {
    SetFour(a);
    hide SetBit;
    SetLow(a);
  }

  lemma SetLow(a: u16)
    ensures var b := SetBit(a, 1); b % 2 == 1 && b / 2 == a / 2
    ensures var b := SetBit(a, 2); b % 2 == a % 2 && b / 2 % 2 == 1 && b / 4 == a / 4
  {
    if a / 2 % 2 == 0 {
      assert (a + 2) / 2 == a / 2 + 1;
    }
  }

  lemma SetFour(a: u16)
    ensures var b := SetBit(a, 4); b % 2 == a % 2 && b / 2 % 2 == a / 2 % 2 && b / 4 % 2 == 1 && b / 8 == a / 8
  {
    var q, r := a / 4, a % 4;
    Quarters(q, r);
    Quarters(q + 1, r);
    assert q % 2 == 0 ==> (q + 1) / 2 == q / 2;
  }

  lemma Quarters(q: nat, r: nat)
    requires r < 4
    ensures var a := 4 * q + r;
            && a / 4 == q && a / 8 == q / 2 && a % 2 == r % 2
            && a / 2 == 2 * q + r / 2 && a / 2 % 2 == r / 2 % 2
  {
  }

  lemma ClearOne(a: u16)
    ensures var b := ClearBit(a, 1); b % 2 == 0 && b / 2 == a / 2
    ensures var b := ClearBit(a, 2); b % 2 == a % 2 && b / 2 % 2 == 0 && b / 4 == a / 4
    ensures var b := ClearBit(a, 4); b % 2 == a % 2 && b / 2 % 2 == a / 2 % 2 && b / 4 % 2 == 0 && b / 8 == a / 8
  {
    ClearFour(a);
    hide ClearBit;
    ClearLow(a);
  }

  lemma ClearLow(a: u16)
    ensures var b := ClearBit(a, 1); b % 2 == 0 && b / 2 == a / 2
    ensures var b := ClearBit(a, 2); b % 2 == a % 2 && b / 2 % 2 == 0 && b / 4 == a / 4
  {
    if a / 2 % 2 == 1 {
      assert (a - 2) / 2 == a / 2 - 1;
    }
  }

  lemma ClearFour(a: u16)
    ensures var b := ClearBit(a, 4); b % 2 == a % 2 && b / 2 % 2 == a / 2 % 2 && b / 4 % 2 == 0 && b / 8 == a / 8
  {
    var q, r := a / 4, a % 4;
    Quarters(q, r);
    if q % 2 == 1 {
      Quarters(q - 1, r);
      assert (q - 1) / 2 == q / 2;
    }
  }

  lemma Halves(b: u16, a: u16)
    ensures b / 2 == a / 2 ==> b / 4 == a / 4
    ensures b / 4 == a / 4 ==> b / 8 == a / 8
  {
  }

  /** 38 and 48 take the colour after them: an index, or three channels, no
      value above 255. Without it they set nothing. */
  lemma ColorsSet(t: Tables, c: Core, fg: bool, a: seq<u16>)
    requires Wf(c)
    requires a != [] && a[0] == (if fg then 38 else 48)
    requires |a| > 1 ==> (a[1] == 5 && |a| <= 3) || (a[1] == 2 && |a| in {2, 5})
    ensures (StepCore(t, c, Control(0x6d, a))
             == if |a| <= 2 then c
                else
                  var color := if a[1] == 5 then Indexed(Min(a[2], 255))
                               else Rgb(Min(a[2], 255), Min(a[3], 255), Min(a[4], 255));
                  c.(pen := if fg then c.pen.(fg := color) else c.pen.(bg := color)))
  {
    SgrStep(t, c, a);
    hide StepCore, SgrOne, Wf;
    if |a| == 3 {
      assert SgrFrom(c.pen, a, 0) == SgrFrom(WithColor(c.pen, fg, PaintIndexed(a[2])), a, 3);
    } else if |a| == 5 {
      assert SgrFrom(c.pen, a, 0)
          == SgrFrom(WithColor(c.pen, fg, Rgb(Min(a[2], 255), Min(a[3], 255), Min(a[4], 255))), a, 5);
    } else if |a| == 1 {
      assert SgrFrom(c.pen, a, 0) == SgrFrom(c.pen, a, 1);
    } else if a[1] == 2 {
      assert SgrFrom(c.pen, a, 0) == SgrFrom(c.pen, a, 2);
    }
  }

  /** A colour is one rendition: what follows it acts as it would alone. */
  lemma ColorThen(t: Tables, c: Core, a: seq<u16>, b: seq<u16>)
    requires Wf(c) && b != []
    requires |a| >= 3 && a[0] in {38, 48} && ((a[1] == 5 && |a| == 3) || (a[1] == 2 && |a| == 5))
    ensures StepCore(t, c, Control(0x6d, a + b)) == StepCore(t, StepCore(t, c, Control(0x6d, a)), Control(0x6d, b))
  {
    SgrStep(t, c, a + b);
    SgrStep(t, c, a);
    var p := ApplySgr(c.pen, a);
    SgrStep(t, c.(pen := p), b);
    L.SgrShift(p, a, b, 0);
    var n := (a + b)[0];
    hide StepCore, SgrOne, Wf;
    if a[1] == 5 {
      var q := WithColor(c.pen, n == 38, PaintIndexed(a[2]));
      assert SgrFrom(c.pen, a, 0) == SgrFrom(q, a, 3) == q;
      assert SgrFrom(c.pen, a + b, 0) == SgrFrom(q, a + b, 3);
    } else {
      var q := WithColor(c.pen, n == 38, Rgb(Min(a[2], 255), Min(a[3], 255), Min(a[4], 255)));
      assert SgrFrom(c.pen, a, 0) == SgrFrom(q, a, 5) == q;
      assert SgrFrom(c.pen, a + b, 0) == SgrFrom(q, a + b, 5);
    }
  }

  // ---------------------------------------------------------------- modes

  function Private(on: bool, params: seq<u16>): Action {
    Csi(params, [0x3f], false, if on then 0x68 else 0x6c)
  }

  /** The input modes once mode `p` is switched: cursor keys, bracketed paste,
      the four mouse modes and focus events. */
  function ModesAfter(m: Modes, p: u16, on: bool): Modes {
    Modes(if p == 1 then on else m.appCursorKeys, m.appKeypad, if p == 2004 then on else m.bracketedPaste,
          if p == 1000 then on else m.mouseX10, if p == 1002 then on else m.mouseButton,
          if p == 1003 then on else m.mouseAny, if p == 1006 then on else m.mouseSgr,
          if p == 1004 then on else m.focusEvents)
  }

  /** Each private mode that is a switch, on or off. */
  lemma ModeSets(t: Tables, c: Core, p: u16, on: bool)
    requires Wf(c) && p != 1047 && p != 1049
    ensures StepCore(t, c, Private(on, [p]))
         == c.(autowrap := if p == 7 then on else c.autowrap, cursorVisible := if p == 25 then on else c.cursorVisible,
               modes := ModesAfter(c.modes, p, on))
  {
    PrivateStep(t, c, [], p, on);
    InputModeSets(c.modes, p, on);
    hide StepCore, Wf, InputMode, ModesAfter;
  }

  lemma InputModeSets(m: Modes, p: u16, on: bool)
    ensures InputMode(m, p, on) == ModesAfter(m, p, on)
    ensures p == 7 || p == 25 ==> ModesAfter(m, p, on) == m
  {
    if p in {1, 2004, 1000} {
      hide ModesAfter;
      InputModeFirst(m, p, on);
    } else if p in {1002, 1003, 1006, 1004} {
      hide ModesAfter;
      InputModeSecond(m, p, on);
    } else {
      assert InputMode(m, p, on) == m;
    }
  }

  lemma InputModeFirst(m: Modes, p: u16, on: bool)
    requires p in {1, 2004, 1000}
    ensures InputMode(m, p, on) == ModesAfter(m, p, on)
  {
  }

  lemma InputModeSecond(m: Modes, p: u16, on: bool)
    requires p in {1002, 1003, 1006, 1004}
    ensures InputMode(m, p, on) == ModesAfter(m, p, on)
  {
  }

  lemma PrivateStep(t: Tables, c: Core, params: seq<u16>, p: u16, on: bool)
    requires Wf(c)
    ensures StepCore(t, c, Private(on, params + [p])) == PrivateOne(StepCore(t, c, Private(on, params)), p, on)
    ensures StepCore(t, c, Private(on, [])) == c
    ensures params == [] ==> StepCore(t, c, Private(on, [p])) == PrivateOne(c, p, on)
  {
    PrefixModes(c, params, params + [p], |params|, on);
    hide Wf, PrivateOne;
    assert [] + [p] == [p];
  }

  lemma {:induction false} PrefixModes(c: Core, a: seq<u16>, b: seq<u16>, n: nat, on: bool)
    requires Wf(c) && n <= |a| && a <= b
    ensures PrivateModes(c, a, n, on) == PrivateModes(c, b, n, on)
  {
    if n > 0 {
      PrefixModes(c, a, b, n - 1, on);
    }
    hide Wf, PrivateOne;
  }

  /** Modes given together are set one after another. */
  lemma ModesInTurn(t: Tables, c: Core, params: seq<u16>, p: u16, on: bool)
    requires Wf(c)
    ensures StepCore(t, c, Private(on, [])) == c
    ensures StepCore(t, c, Private(on, params + [p]))
         == StepCore(t, StepCore(t, c, Private(on, params)), Private(on, [p]))
  {
    PrivateStep(t, c, params, p, on);
    PrivateStep(t, StepCore(t, c, Private(on, params)), [], p, on);
    hide StepCore, PrivateOne, Wf;
  }

  // ---------------------------------------------------------------- the alternate screen

  /** 1047h and 1049h: the screen goes behind a blank one, once, and the cursor
      home; 1049 takes the cursor and the pen along. */
  lemma AlternateEntered(t: Tables, c: Core, withCursor: bool)
    requires Wf(c)
    ensures var taken := if withCursor then Some(SavedCursor(c.cursorCol, c.cursorRow, c.pendingWrap, c.pen)) else None;
            StepCore(t, c, Private(true, [if withCursor then 1049 else 1047]))
            == CursorAt(c, 0, 0).(grid := BlankGrid(c.cols, c.rows, c.pen.bg), inAlt := true,
                                  savedGrid := if c.inAlt then c.savedGrid else Some(c.grid),
                                  altCursor := if c.inAlt then c.altCursor else taken)
  {
    PrivateStep(t, c, [], if withCursor then 1049 else 1047, true);
    hide StepCore, GridsOk;
  }

  /** 1047l and 1049l give back the screen behind, and 1049 the cursor and pen
      taken along, on the screen; on the primary screen they do nothing. */
  lemma AlternateLeft(t: Tables, c: Core, withCursor: bool)
    requires Wf(c)
    ensures var d := StepCore(t, c, Private(false, [if withCursor then 1049 else 1047]));
            (d
             == if !c.inAlt then c
                else
                  var back := c.(grid := c.savedGrid.value, savedGrid := None, altCursor := None, inAlt := false);
                  match c.altCursor
                  case None => back
                  case Some(s) =>
                    if !withCursor then back
                    else back.(cursorCol := Min(s.col, c.cols - 1), cursorRow := Min(s.row, c.rows - 1),
                               pendingWrap := s.pendingWrap, pen := s.pen))
  {
    PrivateStep(t, c, [], if withCursor then 1049 else 1047, false);
    hide StepCore, GridsOk;
  }

  // ---------------------------------------------------------------- what does nothing

  /** The final bytes that change the screen. */
  predicate Known(fin: u8) {
    fin in {0x40, 0x41, 0x42, 0x43, 0x44, 0x45, 0x46, 0x47, 0x48, 0x4a, 0x4b, 0x4c, 0x4d, 0x50, 0x53, 0x54, 0x58,
            0x64, 0x66, 0x6d, 0x72}
  }

  /** A control sequence with too much in it, with a marker or intermediates
      other than those of the private modes, or with any other final byte
      changes nothing; nor does an OSC string. */
  lemma OthersDoNothing(t: Tables, c: Core, a: Action)
    requires Wf(c)
    requires match a
             case Csi(_, inters, ignore, fin) =>
               ignore || (inters == [] && !Known(fin)) || (inters != [] && !(inters == [0x3f] && fin in {0x68, 0x6c}))
             case Osc(_) => true
             case _ => false
    ensures StepCore(t, c, a) == c
  {
    hide Wf;
  }

  // ---------------------------------------------------------------- size

  /** A grid of another size: what fits stays where it is, the rest is blank. */
  ghost predicate Cropped(g: Rows, cols: nat, rows: nat, h: Rows, wide: nat, high: nat) {
    |g| == rows && |h| == high
    && (forall y :: 0 <= y < rows ==> |g[y]| == cols) && (forall y :: 0 <= y < high ==> |h[y]| == wide)
    && forall y, x :: 0 <= y < high && 0 <= x < wide ==>
         h[y][x] == if y < rows && x < cols then g[y][x] else Blank(Default)
  }

  function OnScreen(s: Option<SavedCursor>, cols: u16, rows: u16): Option<SavedCursor>
    requires cols > 0 && rows > 0
  {
    if s.None? then None else Some(s.value.(col := Min(s.value.col, cols - 1), row := Min(s.value.row, rows - 1)))
  }

  /** Resizing crops or pads both screens, keeps every cursor on the screen,
      opens the margins, and leaves pen, modes and palette alone. */
  lemma ResizedIs(c: Core, cols: u16, rows: u16)
    requires Wf(c) && cols > 0 && rows > 0
    ensures var d := Resize(c, cols, rows);
            && d == c.(cols := cols, rows := rows, grid := d.grid, savedGrid := d.savedGrid,
                       cursorCol := Min(c.cursorCol, cols - 1), cursorRow := Min(c.cursorRow, rows - 1),
                       scrollTop := 0, scrollBottom := rows - 1, pendingWrap := false, cluster := None,
                       savedCursor := OnScreen(c.savedCursor, cols, rows), altCursor := OnScreen(c.altCursor, cols, rows))
            && Cropped(c.grid, c.cols, c.rows, d.grid, cols, rows)
            && (c.savedGrid.Some? <==> d.savedGrid.Some?)
            && (d.savedGrid.Some? ==> Cropped(c.savedGrid.value, c.cols, c.rows, d.savedGrid.value, cols, rows))
  {
    CroppedIs(c.grid, c.cols, c.rows, cols, rows);
    if c.savedGrid.Some? {
      CroppedIs(c.savedGrid.value, c.cols, c.rows, cols, rows);
    }
    hide ResizeRows, Cropped;
  }

  lemma CroppedIs(g: Rows, cols: nat, rows: nat, wide: nat, high: nat)
    requires Shaped(g, cols, rows)
    ensures Cropped(g, cols, rows, ResizeRows(g, wide, high), wide, high)
  {
  }
}
