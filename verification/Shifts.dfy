/** Rows and cells that move together, told position by position, and the
    edits of `Grid` seen that way. */
module Shifts {
  import opened VtTypes
  import opened Grid

  /** Rows `lo..=hi` go up by `n`; what comes in from below is `blank`. */
  function RowsUp(g: Rows, lo: nat, hi: nat, n: nat, blank: Row): (h: Rows)
    requires hi < |g|
    ensures |h| == |g|
  {
    seq(|g|, y requires 0 <= y < |g| => if !(lo <= y <= hi) then g[y] else if y + n <= hi then g[y + n] else blank)
  }

  /** Rows `lo..=hi` go down by `n`; what comes in from above is `blank`. */
  function RowsDown(g: Rows, lo: nat, hi: nat, n: nat, blank: Row): (h: Rows)
    requires hi < |g|
    ensures |h| == |g|
  {
    seq(|g|, y requires 0 <= y < |g| => if !(lo <= y <= hi) then g[y] else if lo <= y - n then g[y - n] else blank)
  }

  /** The cells from `lo` on go right by `n`, off the edge. */
  function CellsRight(row: Row, lo: nat, n: nat, bg: Color): (r: Row)
    ensures |r| == |row|
  {
    seq(|row|, x requires 0 <= x < |row| => if x < lo then row[x] else if lo <= x - n then row[x - n] else Blank(bg))
  }

  /** The cells from `lo` on go left by `n`, over the first of them. */
  function CellsLeft(row: Row, lo: nat, n: nat, bg: Color): (r: Row)
    ensures |r| == |row|
  {
    seq(|row|, x requires 0 <= x < |row| => if x < lo then row[x] else if x + n < |row| then row[x + n] else Blank(bg))
  }

  lemma DeletedGoUp(g: Rows, lo: nat, hi: nat, n: nat, blank: Row)
    requires lo <= hi < |g|
    ensures LinesDeleted(g, lo, hi, Min(n, hi + 1 - lo), blank) == RowsUp(g, lo, hi, n, blank)
  {
    LinesDeletedAre(g, RowsUp(g, lo, hi, n, blank), lo, hi, Min(n, hi + 1 - lo), blank);
  }

  lemma InsertedGoDown(g: Rows, lo: nat, hi: nat, n: nat, blank: Row)
    requires lo <= hi < |g|
    ensures LinesInserted(g, lo, hi, Min(n, hi + 1 - lo), blank) == RowsDown(g, lo, hi, n, blank)
  {
    LinesInsertedAre(g, RowsDown(g, lo, hi, n, blank), lo, hi, Min(n, hi + 1 - lo), blank);
  }

  lemma InsertedGoRight(row: Row, col: nat, n: nat, bg: Color)
    requires col <= |row|
    ensures CellsInserted(row, col, Min(n, |row| - col), bg) == CellsRight(row, col, n, bg)
  {
    var x, y := CellsInserted(row, col, Min(n, |row| - col), bg), CellsRight(row, col, n, bg);
    forall k | 0 <= k < |row| ensures x[k] == y[k] {
    }
  }

  lemma DeletedGoLeft(row: Row, col: nat, n: nat, bg: Color)
    requires col <= |row|
    ensures var m := Min(n, |row| - col);
            CellsDeleted(row, col, m, bg) == CellsLeft(SmashRange(row, col, col + m, bg), col, n, bg)
  {
    var m := Min(n, |row| - col);
    var x, y := CellsDeleted(row, col, m, bg), CellsLeft(SmashRange(row, col, col + m, bg), col, n, bg);
    forall k | 0 <= k < |row| ensures x[k] == y[k] {
    }
  }
}
