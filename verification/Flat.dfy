/** The flat buffer of a grid and its rows. */
module Flat {
  import opened VtTypes
  import opened Grid
  import opened Arith

  /** The rows of a flat buffer of `cols * rows` cells. */
  function RowsOf(s: seq<Cell>, cols: nat, rows: nat): (g: Rows)
    ensures |s| == cols * rows ==> Shaped(g, cols, rows)
  {
    if |s| != cols * rows then []
    else seq(rows, r requires 0 <= r < rows => RowAt(s, cols, rows, r))
  }

  function RowAt(s: seq<Cell>, cols: nat, rows: nat, r: nat): (row: Row)
    requires |s| == cols * rows && r < rows
    ensures |row| == cols
  {
    RowInGrid(r, cols, rows);
    s[r * cols..r * cols + cols]
  }

  /** Row-major concatenation. */
  function Flatten(g: Rows): seq<Cell> {
    if g == [] then [] else g[0] + Flatten(g[1..])
  }

  lemma {:induction false} FlattenLength(g: Rows, cols: nat)
    requires Shaped(g, cols, |g|)
    ensures |Flatten(g)| == cols * |g|
  {
    if g != [] {
      FlattenLength(g[1..], cols);
      assert cols * (|g| - 1) == cols * |g| - cols;
    }
  }

  lemma {:induction false} FlattenAt(g: Rows, cols: nat, r: nat)
    requires Shaped(g, cols, |g|) && r < |g|
    ensures r * cols + cols <= |Flatten(g)|
    ensures Flatten(g)[r * cols..r * cols + cols] == g[r]
  {
    FlattenLength(g, cols);
    FlattenLength(g[1..], cols);
    RowInGrid(r, cols, |g|);
    assert Flatten(g) == g[0] + Flatten(g[1..]);
    hide Flatten;
    if r > 0 {
      FlattenAt(g[1..], cols, r - 1);
      assert (r - 1) * cols == r * cols - cols;
      SliceAfter(g[0], Flatten(g[1..]), r * cols, r * cols + cols);
    }
  }

  lemma SliceAfter(a: seq<Cell>, b: seq<Cell>, lo: nat, hi: nat)
    requires |a| <= lo <= hi <= |a| + |b|
    ensures (a + b)[lo..hi] == b[lo - |a|..hi - |a|]
  {
  }

  lemma FlattenRowView(s: seq<Cell>, cols: nat, rows: nat, g: Rows)
    requires cols > 0 && RowView(s, cols, rows, g)
    ensures Flatten(g) == s
  {
    FlattenLength(g, cols);
    hide Flatten, RowsOf;
    forall i | 0 <= i < |s| ensures Flatten(g)[i] == s[i] {
      FlattenCell(s, cols, rows, g, i);
    }
  }

  lemma FlattenCell(s: seq<Cell>, cols: nat, rows: nat, g: Rows, i: nat)
    requires cols > 0 && RowView(s, cols, rows, g) && i < |s| == |Flatten(g)|
    ensures Flatten(g)[i] == s[i]
  {
    hide Flatten, RowView, Shaped, RowsOf;
    RowViewSize(s, cols, rows, g);
    var r, c, base := RowAndColumn(i, cols, rows);
    FlattenRowCell(s, cols, rows, g, r, c, base);
  }

  lemma RowAndColumn(i: nat, cols: nat, rows: nat) returns (r: nat, c: nat, base: nat)
    requires cols > 0 && i < cols * rows
    ensures r < rows && c < cols && base == r * cols && i == base + c
  {
    CellOf(i, cols, rows);
    r, c := i / cols, i % cols;
    base := r * cols;
  }

  lemma RowViewSize(s: seq<Cell>, cols: nat, rows: nat, g: Rows)
    requires RowView(s, cols, rows, g)
    ensures |g| == rows && Shaped(g, cols, |g|) && |s| == cols * rows
  {
  }

  /** Column `c` of the row that starts at `base`. */
  lemma FlattenRowCell(s: seq<Cell>, cols: nat, rows: nat, g: Rows, r: nat, c: nat, base: nat)
    requires RowView(s, cols, rows, g) && |g| == rows && Shaped(g, cols, |g|)
    requires r < rows && c < cols && base == r * cols
    ensures base + c < |Flatten(g)| && base + c < |s| && Flatten(g)[base + c] == s[base + c]
  {
    hide Flatten, RowView, Shaped, RowsOf;
    FlattenAt(g, cols, r);
    RowViewAt(s, cols, rows, g, r);
    SameAt(Flatten(g), s, base, cols, c);
  }

  lemma SameAt(a: seq<Cell>, b: seq<Cell>, base: nat, n: nat, c: nat)
    requires base + n <= |a| && base + n <= |b| && c < n && a[base..base + n] == b[base..base + n]
    ensures a[base + c] == b[base + c]
  {
    assert a[base..base + n][c] == b[base..base + n][c];
  }

  lemma RowsOfFlatten(g: Rows, cols: nat)
    requires Shaped(g, cols, |g|)
    ensures RowsOf(Flatten(g), cols, |g|) == g
  {
    FlattenLength(g, cols);
    forall r | 0 <= r < |g| ensures RowsOf(Flatten(g), cols, |g|)[r] == g[r] {
      FlattenAt(g, cols, r);
    }
  }

  /** A slice of a buffer of which `r'` was written at `base`. */
  lemma SliceUpdate(s: seq<Cell>, s': seq<Cell>, base: nat, r': Row, lo: nat)
    requires base + |r'| <= |s| && lo + |r'| <= |s|
    requires s' == s[..base] + r' + s[base + |r'|..]
    ensures lo == base ==> s'[lo..lo + |r'|] == r'
    ensures lo + |r'| <= base || base + |r'| <= lo ==> s'[lo..lo + |r'|] == s[lo..lo + |r'|]
  {
  }

  lemma RowAtUpdate(s: seq<Cell>, s': seq<Cell>, cols: nat, rows: nat, row: nat, r': Row, r: nat)
    requires |s| == |s'| == cols * rows && row < rows && r < rows && |r'| == cols
    requires row * cols + cols <= |s|
    requires s' == s[..row * cols] + r' + s[row * cols + cols..]
    ensures RowAt(s', cols, rows, r) == if r == row then r' else RowAt(s, cols, rows, r)
  {
    RowInGrid(r, cols, rows);
    if r < row {
      RowsApart(r, row, cols);
    } else if r > row {
      RowsApart(row, r, cols);
    }
    SliceUpdate(s, s', row * cols, r', r * cols);
  }

  /** Overwriting one row of the buffer overwrites one row of the grid. */
  lemma RowsOfUpdate(s: seq<Cell>, s': seq<Cell>, cols: nat, rows: nat, row: nat, r': Row)
    requires |s| == |s'| == cols * rows && row < rows && |r'| == cols
    requires row * cols + cols <= |s|
    requires s' == s[..row * cols] + r' + s[row * cols + cols..]
    ensures RowsOf(s', cols, rows) == RowsOf(s, cols, rows)[row := r']
  {
    forall r | 0 <= r < rows
      ensures RowAt(s', cols, rows, r) == if r == row then r' else RowAt(s, cols, rows, r)
    {
      RowAtUpdate(s, s', cols, rows, row, r', r);
    }
  }

  /** `g` is the row view of the buffer `s`. */
  ghost predicate RowView(s: seq<Cell>, cols: nat, rows: nat, g: Rows) {
    |s| == cols * rows && g == RowsOf(s, cols, rows)
  }

  function Area(cols: nat, rows: nat): nat {
    cols * rows
  }

  function SavedRows(s: Option<seq<Cell>>, cols: nat, rows: nat): Option<Rows> {
    if s.Some? then Some(RowsOf(s.value, cols, rows)) else None
  }

  lemma RowViewRows(s: seq<Cell>, cols: nat, rows: nat, g: Rows)
    requires RowView(s, cols, rows, g)
    ensures |s| == Area(cols, rows) && SavedRows(Some(s), cols, rows) == Some(g)
  {
  }

  lemma RowViewUpdate(s: seq<Cell>, s': seq<Cell>, cols: nat, rows: nat, g: Rows, row: nat, r': Row)
    requires RowView(s, cols, rows, g) && |s'| == |s| && row < rows && |r'| == cols
    requires row * cols + cols <= |s|
    requires s' == s[..row * cols] + r' + s[row * cols + cols..]
    ensures RowView(s', cols, rows, g[row := r'])
  {
    RowsOfUpdate(s, s', cols, rows, row, r');
  }

  lemma RowViewAt(s: seq<Cell>, cols: nat, rows: nat, g: Rows, r: nat)
    requires RowView(s, cols, rows, g) && r < rows
    ensures 0 <= r * cols && r * cols + cols <= |s|
    ensures s[r * cols..r * cols + cols] == g[r] && |g[r]| == cols
  {
    RowInGrid(r, cols, rows);
    assert g[r] == RowAt(s, cols, rows, r);
  }

  lemma RowsOfSet(s: seq<Cell>, cols: nat, rows: nat, col: nat, row: nat, v: Cell)
    requires |s| == cols * rows && col < cols && row < rows
    requires row * cols + col < |s|
    ensures RowsOf(s, cols, rows)[row][col] == s[row * cols + col]
    ensures RowsOf(s[row * cols + col := v], cols, rows)
         == RowsOf(s, cols, rows)[row := RowsOf(s, cols, rows)[row][col := v]]
  {
    CellInGrid(col, row, cols, rows);
    var lo := row * cols;
    var r' := RowsOf(s, cols, rows)[row][col := v];
    assert s[lo + col := v] == s[..lo] + r' + s[lo + cols..];
    RowsOfUpdate(s, s[lo + col := v], cols, rows, row, r');
  }

  lemma RowsOfConst(cols: nat, rows: nat, bg: Color, s: seq<Cell>)
    requires |s| == cols * rows && forall i :: 0 <= i < |s| ==> s[i] == Blank(bg)
    ensures RowsOf(s, cols, rows) == BlankGrid(cols, rows, bg)
  {
    forall r | 0 <= r < rows ensures RowAt(s, cols, rows, r) == BlankRow(cols, bg) {
      RowInGrid(r, cols, rows);
      SliceConst(s, r * cols, cols, bg);
    }
  }

  lemma SliceConst(s: seq<Cell>, lo: nat, n: nat, bg: Color)
    requires lo + n <= |s| && forall i :: 0 <= i < |s| ==> s[i] == Blank(bg)
    ensures s[lo..lo + n] == BlankRow(n, bg)
  {
  }

  /** `moved` written over a row at column `to`. */
  function Splice(row: Row, to: nat, moved: Row): (r: Row)
    requires to + |moved| <= |row|
    ensures |r| == |row|
  {
    row[..to] + moved + row[to + |moved|..]
  }

  lemma SpliceOutside(row: Row, to: nat, moved: Row, i: nat)
    requires to + |moved| <= |row| && i < |row| && !(to <= i < to + |moved|)
    ensures Splice(row, to, moved)[i] == row[i]
  {
  }

  lemma SliceSlice(s: seq<Cell>, a: nat, cols: nat, from: nat, len: nat)
    requires a + cols <= |s| && from + len <= cols
    ensures s[a..a + cols][from..from + len] == s[a + from..a + from + len]
  {
    var row := s[a..a + cols];
    var x, y := row[from..from + len], s[a + from..a + from + len];
    forall i | 0 <= i < len ensures x[i] == y[i] {
      assert row[from + i] == s[a + (from + i)];
    }
  }

  /** Copying part of the row at `a` into the row at `b`, on the flat buffer
      and on the row. */
  lemma SpliceRow(s: seq<Cell>, a: nat, b: nat, cols: nat, from: nat, to: nat, len: nat)
    requires a + cols <= |s| && b + cols <= |s| && from + len <= cols && to + len <= cols
    ensures Splice(s, b + to, s[a + from..a + from + len])
         == s[..b] + Splice(s[b..b + cols], to, s[a..a + cols][from..from + len]) + s[b + cols..]
  {
    var moved := s[a + from..a + from + len];
    SliceSlice(s, a, cols, from, len);
    var row := s[b..b + cols];
    var x := Splice(s, b + to, moved);
    var mid := Splice(row, to, moved);
    var y := s[..b] + mid + s[b + cols..];
    forall k | 0 <= k < cols ensures mid[k] == x[b + k] {
      if !(to <= k < to + len) {
        assert mid[k] == row[k] == s[b + k];
      }
    }
    hide Splice;
    forall i | 0 <= i < |s| ensures x[i] == y[i] {
      if b <= i < b + cols {
        assert y[i] == mid[i - b];
      } else {
        SpliceOutside(s, b + to, moved, i);
      }
    }
  }

  lemma MovedRow(s: seq<Cell>, s': seq<Cell>, cols: nat, rows: nat, g: Rows,
                 src: nat, from: nat, dst: nat, to: nat, len: nat)
    requires RowView(s, cols, rows, g) && src < rows && dst < rows && from + len <= cols && to + len <= cols
    requires 0 <= src * cols && src * cols + cols <= |s| && 0 <= dst * cols && dst * cols + cols <= |s|
    requires |g| == rows && |g[src]| == cols == |g[dst]|
    requires s' == Splice(s, dst * cols + to, s[src * cols + from..src * cols + from + len])
    ensures RowView(s', cols, rows, g[dst := Splice(g[dst], to, g[src][from..from + len])])
  {
    RowViewAt(s, cols, rows, g, src);
    RowViewAt(s, cols, rows, g, dst);
    SpliceRow(s, src * cols, dst * cols, cols, from, to, len);
    hide RowView, Splice;
    RowViewUpdate(s, s', cols, rows, g, dst, Splice(g[dst], to, g[src][from..from + len]));
  }

  // ---------------------------------------------------------------- resizing

  /** `ResizeRow` after its first `c` columns were copied. */
  function PartRow(row: Row, cols: nat, c: nat): (r: Row)
    requires c <= cols && c <= |row|
    ensures |r| == cols
  {
    row[..c] + BlankRow(cols - c, Default)
  }

  lemma PartRowStep(row: Row, cols: nat, c: nat)
    requires c < cols && c < |row|
    ensures PartRow(row, cols, c + 1) == PartRow(row, cols, c)[c := row[c]]
  {
  }

  lemma PartRowEnds(row: Row, cols: nat)
    ensures PartRow(row, cols, 0) == BlankRow(cols, Default)
    ensures PartRow(row, cols, Min(|row|, cols)) == ResizeRow(row, cols)
  {
  }

  /** `ResizeRows` after its first `r` rows and `c` columns of row `r` were copied. */
  function PartRows(g: Rows, cols: nat, rows: nat, r: nat, c: nat): (h: Rows)
    requires r < |g| ==> c <= cols && c <= |g[r]|
    ensures Shaped(h, cols, rows)
  {
    seq(rows, k requires 0 <= k < rows => PartRowAt(g, cols, r, c, k))
  }

  function PartRowAt(g: Rows, cols: nat, r: nat, c: nat, k: nat): (row: Row)
    requires r < |g| ==> c <= cols && c <= |g[r]|
    ensures |row| == cols
  {
    if k < r && k < |g| then ResizeRow(g[k], cols)
    else if k == r && k < |g| then PartRow(g[k], cols, c)
    else BlankRow(cols, Default)
  }

  lemma PartRowsStart(g: Rows, cols: nat, rows: nat)
    ensures PartRows(g, cols, rows, 0, 0) == BlankGrid(cols, rows, Default)
  {
    if |g| > 0 {
      PartRowEnds(g[0], cols);
    }
  }

  lemma PartRowsStep(g: Rows, cols: nat, rows: nat, r: nat, c: nat)
    requires r < |g| && r < rows && c < cols && c < |g[r]|
    ensures var h := PartRows(g, cols, rows, r, c);
            PartRows(g, cols, rows, r, c + 1) == h[r := h[r][c := g[r][c]]]
  {
    PartRowStep(g[r], cols, c);
  }

  lemma PartRowsNext(g: Rows, cols: nat, rows: nat, r: nat)
    requires r < |g| && r < rows
    ensures PartRows(g, cols, rows, r, Min(|g[r]|, cols)) == PartRows(g, cols, rows, r + 1, 0)
  {
    PartRowEnds(g[r], cols);
    if r + 1 < |g| {
      PartRowEnds(g[r + 1], cols);
    }
  }

  lemma PartRowsEnd(g: Rows, cols: nat, rows: nat)
    ensures PartRows(g, cols, rows, Min(|g|, rows), 0) == ResizeRows(g, cols, rows)
  {
    if rows < |g| {
      PartRowEnds(g[rows], cols);
    }
  }

  // ---------------------------------------------------------------- shifting part of a row

  lemma CellsInsertedIs(row: Row, col: nat, n: nat, bg: Color)
    requires col + n <= |row|
    ensures FillRow(Splice(row, col + n, row[col..col + (|row| - n - col)]), col, col + n, bg)
         == CellsInserted(row, col, n, bg)
  {
    var x := FillRow(Splice(row, col + n, row[col..col + (|row| - n - col)]), col, col + n, bg);
    var y := CellsInserted(row, col, n, bg);
    forall i | 0 <= i < |row| ensures x[i] == y[i] {
    }
  }

  lemma CellsDeletedIs(row: Row, s: Row, col: nat, n: nat, bg: Color)
    requires col + n <= |row| && s == SmashRange(row, col, col + n, bg)
    ensures FillRow(Splice(s, col, s[col + n..col + n + (|row| - n - col)]), |row| - n, |row|, bg)
         == CellsDeleted(row, col, n, bg)
  {
    var x := FillRow(Splice(s, col, s[col + n..col + n + (|row| - n - col)]), |row| - n, |row|, bg);
    var y := CellsDeleted(row, col, n, bg);
    forall i | 0 <= i < |row| ensures x[i] == y[i] {
    }
  }

  lemma InsertNone(row: Row, col: nat, bg: Color)
    requires col <= |row|
    ensures CellsInserted(row, col, 0, bg) == row
  {
  }

  lemma DeleteNone(row: Row, col: nat, bg: Color)
    requires col <= |row|
    ensures CellsDeleted(row, col, 0, bg) == row
  {
  }

  // ---------------------------------------------------------------- erasing a flat span, one cell at a time

  /** The grid after `Smash` at every cell of `from..i`. */
  function SmashSpan(g: Rows, cols: nat, from: nat, i: nat, bg: Color): (h: Rows)
    requires Shaped(g, cols, |g|)
    ensures Shaped(h, cols, |g|)
  {
    seq(|g|, r requires 0 <= r < |g| => SmashRange(g[r], Clip(from, r, cols), Clip(i, r, cols), bg))
  }

  function FillRow(row: Row, lo: nat, hi: nat, bg: Color): (r: Row)
    requires hi <= |row|
    ensures |r| == |row|
  {
    if hi <= lo then row else row[..lo] + BlankRow(hi - lo, bg) + row[hi..]
  }

  /** The grid after every cell of `from..i` was set to a blank. */
  function FillSpan(g: Rows, cols: nat, from: nat, i: nat, bg: Color): (h: Rows)
    requires Shaped(g, cols, |g|)
    ensures Shaped(h, cols, |g|)
  {
    seq(|g|, r requires 0 <= r < |g| => FillRow(g[r], Clip(from, r, cols), Clip(i, r, cols), bg))
  }

  /** How the clipped bound of each row moves when the span grows by a cell. */
  lemma ClipStep(i: nat, r: nat, cols: nat)
    requires cols > 0
    ensures r < i / cols ==> Clip(i, r, cols) == Clip(i + 1, r, cols) == cols
    ensures r == i / cols ==> Clip(i, r, cols) == i % cols && Clip(i + 1, r, cols) == i % cols + 1
    ensures r > i / cols ==> Clip(i, r, cols) == Clip(i + 1, r, cols) == 0
  {
    var q := i / cols;
    assert i == q * cols + i % cols;
    if r < q {
      MulMono(r + 1, q, cols);
      assert (r + 1) * cols == r * cols + cols;
    } else if r > q {
      MulMono(q + 1, r, cols);
      assert (q + 1) * cols == q * cols + cols;
    }
  }

  lemma ClipMono(a: nat, b: nat, r: nat, cols: nat)
    requires a <= b
    ensures Clip(a, r, cols) <= Clip(b, r, cols)
  {
  }

  lemma SmashRowStep(row: Row, r: nat, from: nat, i: nat, bg: Color)
    requires |row| > 0 && from <= i
    ensures var s := SmashRange(row, Clip(from, r, |row|), Clip(i, r, |row|), bg);
            var s' := SmashRange(row, Clip(from, r, |row|), Clip(i + 1, r, |row|), bg);
            s' == if r == i / |row| then Smash(s, i % |row|, bg) else s
  {
    ClipStep(i, r, |row|);
    ClipMono(from, i, r, |row|);
  }

  lemma FillRowStep(row: Row, r: nat, from: nat, i: nat, bg: Color)
    requires |row| > 0 && from <= i
    ensures var s := FillRow(row, Clip(from, r, |row|), Clip(i, r, |row|), bg);
            var s' := FillRow(row, Clip(from, r, |row|), Clip(i + 1, r, |row|), bg);
            s' == if r == i / |row| then s[i % |row| := Blank(bg)] else s
  {
    ClipStep(i, r, |row|);
    ClipMono(from, i, r, |row|);
    if r == i / |row| {
      FillOne(row, Clip(from, r, |row|), i % |row|, bg);
    }
  }

  lemma FillOne(row: Row, lo: nat, hi: nat, bg: Color)
    requires lo <= hi < |row|
    ensures FillRow(row, lo, hi + 1, bg) == FillRow(row, lo, hi, bg)[hi := Blank(bg)]
  {
  }

  lemma FillAll(row: Row, bg: Color)
    ensures FillRow(row, 0, |row|, bg) == BlankRow(|row|, bg)
  {
  }

  lemma SmashSpanStep(g: Rows, cols: nat, from: nat, i: nat, bg: Color)
    requires cols > 0 && Shaped(g, cols, |g|) && from <= i && i / cols < |g|
    ensures var s := SmashSpan(g, cols, from, i, bg);
            SmashSpan(g, cols, from, i + 1, bg) == s[i / cols := Smash(s[i / cols], i % cols, bg)]
  {
    var s, s' := SmashSpan(g, cols, from, i, bg), SmashSpan(g, cols, from, i + 1, bg);
    forall r | 0 <= r < |g| ensures s'[r] == if r == i / cols then Smash(s[r], i % cols, bg) else s[r] {
      SmashRowStep(g[r], r, from, i, bg);
    }
  }

  lemma FillSpanStep(g: Rows, cols: nat, from: nat, i: nat, bg: Color)
    requires cols > 0 && Shaped(g, cols, |g|) && from <= i && i / cols < |g|
    ensures var s := FillSpan(g, cols, from, i, bg);
            FillSpan(g, cols, from, i + 1, bg) == s[i / cols := s[i / cols][i % cols := Blank(bg)]]
  {
    var s, s' := FillSpan(g, cols, from, i, bg), FillSpan(g, cols, from, i + 1, bg);
    forall r | 0 <= r < |g| ensures s'[r] == if r == i / cols then s[r][i % cols := Blank(bg)] else s[r] {
      FillRowStep(g[r], r, from, i, bg);
    }
  }

  lemma SpanStart(g: Rows, cols: nat, from: nat, bg: Color)
    requires Shaped(g, cols, |g|)
    ensures SmashSpan(g, cols, from, from, bg) == g
    ensures FillSpan(g, cols, from, from, bg) == g
  {
  }

  /** Smashing the span, then filling it, erases it row by row. */
  lemma SpanEnd(g: Rows, cols: nat, from: nat, to: nat, bg: Color)
    requires Shaped(g, cols, |g|)
    ensures FillSpan(SmashSpan(g, cols, from, to, bg), cols, from, to, bg) == SpanErased(g, cols, from, to, bg)
  {
    var s := SmashSpan(g, cols, from, to, bg);
    forall r | 0 <= r < |g|
      ensures FillSpan(s, cols, from, to, bg)[r] == EraseRow(g[r], Clip(from, r, cols), Clip(to, r, cols), bg)
    {
      assert s[r] == SmashRange(g[r], Clip(from, r, cols), Clip(to, r, cols), bg);
    }
  }
}
