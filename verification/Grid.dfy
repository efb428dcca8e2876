/** Rows of cells, and the edits the screen makes to them, on sequences. */
module Grid {
  import opened VtTypes

  type Row = seq<Cell>
  type Rows = seq<Row>

  /** `rows` rows of `cols` cells each. */
  ghost predicate Shaped(g: Rows, cols: int, rows: int) {
    |g| == rows && forall r :: 0 <= r < rows ==> |g[r]| == cols
  }

  function BlankRow(cols: nat, bg: Color): (row: Row)
    ensures |row| == cols
  {
    seq(cols, _ => Blank(bg))
  }

  function BlankRows(n: nat, row: Row): (g: Rows)
    ensures |g| == n
  {
    seq(n, _ => row)
  }

  function BlankGrid(cols: nat, rows: nat, bg: Color): (g: Rows)
    ensures Shaped(g, cols, rows)
  {
    BlankRows(rows, BlankRow(cols, bg))
  }

  /** Remove `n` rows at `first` and add `n` at `last`, the bottom of the region. */
  function LinesDeleted(g: Rows, first: nat, last: nat, n: nat, blank: Row): (h: Rows)
    requires first <= last < |g| && n <= last + 1 - first
    ensures |h| == |g|
  {
    g[..first] + g[first + n..last + 1] + BlankRows(n, blank) + g[last + 1..]
  }

  /** Add `n` rows at `first` and remove `n` at `last`, the bottom of the region. */
  function LinesInserted(g: Rows, first: nat, last: nat, n: nat, blank: Row): (h: Rows)
    requires first <= last < |g| && n <= last + 1 - first
    ensures |h| == |g|
  {
    g[..first] + BlankRows(n, blank) + g[first..last + 1 - n] + g[last + 1..]
  }

  lemma NoLines(g: Rows, first: nat, last: nat, blank: Row)
    requires first <= last < |g|
    ensures LinesInserted(g, first, last, 0, blank) == g == LinesDeleted(g, first, last, 0, blank)
  {
  }

  lemma LinesDeletedAre(g: Rows, h: Rows, first: nat, last: nat, n: nat, blank: Row)
    requires first <= last < |g| == |h| && n <= last + 1 - first
    requires forall k {:trigger h[k]} :: 0 <= k < |g| ==>
               h[k] == if first <= k <= last - n then g[k + n] else if last - n < k <= last then blank else g[k]
    ensures h == LinesDeleted(g, first, last, n, blank)
  {
    var e := LinesDeleted(g, first, last, n, blank);
    forall k | 0 <= k < |g| ensures h[k] == e[k] {
    }
  }

  lemma LinesInsertedAre(g: Rows, h: Rows, first: nat, last: nat, n: nat, blank: Row)
    requires first <= last < |g| == |h| && n <= last + 1 - first
    requires forall k {:trigger h[k]} :: 0 <= k < |g| ==>
               h[k] == if first <= k < first + n then blank else if first + n <= k <= last then g[k - n] else g[k]
    ensures h == LinesInserted(g, first, last, n, blank)
  {
    var e := LinesInserted(g, first, last, n, blank);
    forall k | 0 <= k < |g| ensures h[k] == e[k] {
    }
  }

  function CellsInserted(row: Row, col: nat, n: nat, bg: Color): (r: Row)
    requires col + n <= |row|
    ensures |r| == |row|
  {
    row[..col] + BlankRow(n, bg) + row[col..|row| - n]
  }

  /** Blank the other half of a wide pair when one half, at `col`, is about
      to be overwritten. */
  function Smash(row: Row, col: nat, bg: Color): (r: Row)
    ensures |r| == |row|
  {
    if col >= |row| then row
    else
      var c := row[col];
      var a := if IsLead(c) && col + 1 < |row| && IsTail(row[col + 1]) then row[col + 1 := Blank(bg)] else row;
      if IsTail(c) && col > 0 && IsLead(a[col - 1]) then a[col - 1 := Blank(bg)] else a
  }

  /** `Smash` at every column of `lo..hi`, left to right. */
  function SmashRange(row: Row, lo: nat, hi: nat, bg: Color): (r: Row)
    ensures |r| == |row|
    decreases hi
  {
    if hi <= lo then row else Smash(SmashRange(row, lo, hi - 1, bg), hi - 1, bg)
  }

  function EraseRow(row: Row, lo: nat, hi: nat, bg: Color): (r: Row)
    requires hi <= |row|
    ensures |r| == |row|
  {
    if hi <= lo then row
    else
      var s := SmashRange(row, lo, hi, bg);
      s[..lo] + BlankRow(hi - lo, bg) + s[hi..]
  }

  function CellsDeleted(row: Row, col: nat, n: nat, bg: Color): (r: Row)
    requires col + n <= |row|
    ensures |r| == |row|
  {
    var s := SmashRange(row, col, col + n, bg);
    s[..col] + s[col + n..] + BlankRow(n, bg)
  }

  /** The part of the flat span `0..to` that falls in row `r`. */
  function Clip(to: int, r: nat, cols: nat): (k: nat)
    ensures k <= cols
  {
    var d := to - r * cols;
    if d <= 0 then 0 else Min(d, cols)
  }

  /** Erase the flat span `from..to` of a grid of `cols` columns. */
  function SpanErased(g: Rows, cols: nat, from: nat, to: nat, bg: Color): (h: Rows)
    requires Shaped(g, cols, |g|)
    ensures Shaped(h, cols, |g|)
  {
    seq(|g|, r requires 0 <= r < |g| => EraseRow(g[r], Clip(from, r, cols), Clip(to, r, cols), bg))
  }

  /** Truncate or pad to a new size with default blanks. */
  function ResizeRow(row: Row, cols: nat): (r: Row)
    ensures |r| == cols
  {
    if cols <= |row| then row[..cols] else row + BlankRow(cols - |row|, Default)
  }

  function ResizeRows(g: Rows, cols: nat, rows: nat): (h: Rows)
    ensures Shaped(h, cols, rows)
  {
    seq(rows, r requires 0 <= r < rows => if r < |g| then ResizeRow(g[r], cols) else BlankRow(cols, Default))
  }
}
