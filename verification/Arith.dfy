/** The non-linear facts behind a flat grid: cell (col, row) is at index
    row * cols + col. */
module Arith {

  lemma MulMono(a: nat, b: nat, n: nat)
    requires a <= b
    ensures a * n <= b * n
  {
  }

  lemma DivMono(a: nat, b: nat, n: nat)
    requires a <= b && n > 0
    ensures a / n <= b / n
  {
    var x, y := a / n, b / n;
    assert a == x * n + a % n && b == y * n + b % n;
    if x > y {
      MulMono(y + 1, x, n);
    }
  }

  /** A row of the grid ends inside it, before the next row begins. */
  lemma RowInGrid(r: nat, cols: nat, rows: nat)
    requires r < rows
    ensures 0 <= r * cols && r * cols + cols <= cols * rows
  {
    MulMono(r + 1, rows, cols);
    assert (r + 1) * cols == r * cols + cols;
  }

  lemma RowsApart(r: nat, q: nat, cols: nat)
    requires r < q
    ensures 0 <= r * cols && r * cols + cols <= q * cols
  {
    MulMono(r + 1, q, cols);
    assert (r + 1) * cols == r * cols + cols;
  }

  /** A cell of the grid has a flat index inside it. */
  lemma CellInGrid(col: nat, row: nat, cols: nat, rows: nat)
    requires col < cols && row < rows
    ensures 0 <= row * cols
    ensures row * cols + col < row * cols + cols <= cols * rows
  {
    MulMono(row + 1, rows, cols);
    assert (row + 1) * cols == row * cols + cols;
  }

  lemma CellOf(i: nat, cols: nat, rows: nat)
    requires cols > 0 && i < cols * rows
    ensures i / cols < rows && i % cols < cols
    ensures i == i / cols * cols + i % cols
  {
    var q := i / cols;
    assert i == q * cols + i % cols;
    if q >= rows {
      MulMono(rows, q, cols);
    }
  }

  /** The first and last row a non-empty flat span touches. */
  function SpanRows(cols: nat, rows: nat, from: nat, to: nat): (s: (nat, nat))
    requires cols > 0 && from < to <= cols * rows
    ensures s == (from / cols, (to - 1) / cols)
    ensures s.0 <= s.1 < rows
  {
    DivMono(from, to - 1, cols);
    CellOf(to - 1, cols, rows);
    (from / cols, (to - 1) / cols)
  }
}
