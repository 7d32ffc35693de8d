/** Arithmetic of row-major indices. */
module FlatIndex {

  lemma MulStep(a: nat, b: nat, n: nat)
    ensures a < b ==> a * n + n <= b * n
    ensures a <= b ==> a * n <= b * n
  {
    if a < b {
      assert (a + 1) * n <= b * n;
    }
  }

  /** Column and row give one index, and come back from it by division. */
  lemma Divides(row: nat, column: nat, n: nat)
    requires column < n
    ensures (row * n + column) / n == row
    ensures (row * n + column) % n == column
  {
    var i := row * n + column;
    assert i == i / n * n + i % n;
    MulStep(i / n, row, n);
    MulStep(row, i / n, n);
  }

  /** The index of a cell of a table of `rows` by `n`. */
  function At(row: nat, column: nat, n: nat, rows: nat): (i: nat)
    requires row < rows && column < n
    ensures i == row * n + column && i < rows * n && i / n == row && i % n == column
  {
    MulStep(row, rows, n);
    Divides(row, column, n);
    row * n + column
  }

  /** An index below the table size names a cell. */
  lemma InTable(i: nat, n: nat, rows: nat)
    requires n > 0 && i < rows * n
    ensures i / n < rows && i == i / n * n + i % n
    ensures i % n < n - 1 ==> i + 1 < rows * n && (i + 1) / n == i / n && (i + 1) % n == i % n + 1
  {
    MulStep(rows, i / n, n);
    assert i == i / n * n + i % n;
    if i % n < n - 1 {
      Divides(i / n, i % n + 1, n);
      MulStep(i / n, rows, n);
    }
  }

  /** Row r occupies the n indices from r * n on. */
  lemma RowOf(i: nat, n: nat, r: nat)
    requires n > 0
    ensures i / n == r <==> r * n <= i < r * n + n
    ensures i / n == r ==> i % n == i - r * n
  {
    assert i == i / n * n + i % n;
    if r * n <= i < r * n + n {
      Divides(r, i - r * n, n);
    }
  }

  /** The size of n rows, counted row by row so that no multiplication enters the proofs about
      caches. */
  function Cells(n: nat, width: nat): nat {
    if n == 0 then 0 else Cells(n - 1, width) + width
  }

  lemma {:induction false} CellsMono(n: nat, m: nat, width: nat)
    requires n <= m
    ensures Cells(n, width) <= Cells(m, width)
    decreases m
  {
    if n < m {
      CellsMono(n, m - 1, width);
    }
  }

  lemma {:induction false} CellsAdd(n: nat, m: nat, width: nat)
    ensures Cells(n + m, width) == Cells(n, width) + Cells(m, width)
  {
    if m > 0 {
      CellsAdd(n, m - 1, width);
    }
  }

  lemma {:induction false} CellsIsProduct(n: nat, width: nat)
    ensures Cells(n, width) == n * width
  {
    if n > 0 {
      CellsIsProduct(n - 1, width);
      assert n * width == (n - 1) * width + width;
    }
  }
}
