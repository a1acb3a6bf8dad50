/** Exercise 1.12: the rows of Pascal's triangle, built row by row from the one
    above. pascal_triangle keeps every row; pascal_triangle2 keeps only the last. */
module Pascal {

  /** The binomial coefficient C(i, j), by Pascal's rule. */
  function Binomial(i: nat, j: nat): nat
    requires j <= i
  {
    if j == 0 || j == i then 1 else Binomial(i - 1, j - 1) + Binomial(i - 1, j)
  }

  /** Row i of the triangle (counting from 0): C(i, 0), ..., C(i, i). */
  function Row(i: nat): seq<int>
  {
    seq(i + 1, j requires 0 <= j <= i => Binomial(i, j))
  }

  /** The shape the exercise describes: row i has i + 1 entries, the entries on
      the edges are 1, and each entry inside is the sum of the two above it. */
  predicate IsPascal(rows: seq<seq<int>>)
  {
    (forall i :: 0 <= i < |rows| ==> |rows[i]| == i + 1 && rows[i][0] == 1 && rows[i][i] == 1)
    && (forall i :: 0 < i < |rows| ==>
          forall j :: 0 < j < i ==> rows[i][j] == rows[i - 1][j - 1] + rows[i - 1][j])
  }

  /** Row i of any triangle of the exercise's shape is the binomial row. */
  lemma {:induction false} PascalRowIsBinomial(rows: seq<seq<int>>, i: nat)
    requires IsPascal(rows) && i < |rows|
    ensures rows[i] == Row(i)
    decreases i
  {
    if i > 0 {
      PascalRowIsBinomial(rows, i - 1);
      forall j | 0 < j < i
        ensures rows[i][j] == Binomial(i, j)
      {
        assert rows[i][j] == rows[i - 1][j - 1] + rows[i - 1][j];
      }
    }
  }

  /** The exercise's rules determine the triangle: a sequence of rows has the
      shape exactly when each of its rows is the binomial row of its index. */
  lemma PascalIsBinomial(rows: seq<seq<int>>)
    ensures IsPascal(rows) <==> forall i :: 0 <= i < |rows| ==> rows[i] == Row(i)
  {
    if IsPascal(rows) {
      forall i | 0 <= i < |rows|
        ensures rows[i] == Row(i)
      {
        PascalRowIsBinomial(rows, i);
      }
    }
  }

  /** s[k] as Python reads it: a negative k counts back from the end. */
  function PyIndex(s: seq<int>, k: int): int
    requires -|s| <= k < |s|
  {
    if k < 0 then s[|s| + k] else s[k]
  }

  /** cell_value: the entry at position i of the next row, from the row above.
      The code's indexing also answers for i <= 0, down to i = 1 - |row|, by
      counting from the end; pascal_triangle only passes 1 <= i < |row|, and
      there the result is the binomial entry of the next row. */
  function CellValue(row: seq<int>, i: int): (r: int)
    requires 1 - |row| <= i < |row|
    ensures row == Row(|row| - 1) && i >= 1 ==> r == Binomial(|row|, i)
  {
    PyIndex(row, i - 1) + PyIndex(row, i)
  }

  /** pascal_triangle: starts from [[1]] and appends rows 1 .. n - 1, each built
      as 1, the sums of neighbouring entries of the previous row, 1. It returns
      n rows, or the single row [1] when n < 1, and they have the exercise's shape. */
  method PascalTriangle(n: int) returns (rows: seq<seq<int>>)
    ensures |rows| == if n >= 1 then n else 1
    ensures IsPascal(rows)
    ensures forall i :: 0 <= i < |rows| ==> rows[i] == Row(i)
  {
    rows := [[1]];
    var rowI := 1;
    while rowI < n
      invariant 1 <= rowI <= if n >= 1 then n else 1
      invariant |rows| == rowI
      invariant forall i :: 0 <= i < |rows| ==> rows[i] == Row(i)
    {
      var row := [1];
      var rowJ := 1;
      while rowJ < rowI
        invariant 1 <= rowJ <= rowI
        invariant |row| == rowJ
        invariant forall j :: 0 <= j < rowJ ==> row[j] == Binomial(rowI, j)
      {
        row := row + [CellValue(rows[|rows| - 1], rowJ)];
        rowJ := rowJ + 1;
      }
      row := row + [1];
      assert row == Row(rowI);
      rows := rows + [row];
      rowI := rowI + 1;
    }
    PascalIsBinomial(rows);
  }

  /** pascal_triangle2: the same construction keeping only the previous row. The
      code reads row after the loop (to print it, or to return it when view is 0),
      and for n <= 1 nothing has assigned it by then, so n >= 2 is required.
      The result is row n - 1, the last row pascal_triangle(n) returns: n
      entries, 1 at both ends. */
  method PascalTriangle2(n: int) returns (row: seq<int>)
    requires n >= 2
    ensures row == Row(n - 1)
    ensures |row| == n && row[0] == 1 && row[n - 1] == 1
  {
    var prevRow := [1];
    row := prevRow;  // the code has no row yet here; with n >= 2 the loop replaces it
    var rowI := 1;
    while rowI < n
      invariant 1 <= rowI <= n
      invariant prevRow == Row(rowI - 1)
      invariant row == prevRow
    {
      row := [1];
      var rowJ := 1;
      while rowJ < rowI
        invariant 1 <= rowJ <= rowI
        invariant |row| == rowJ
        invariant forall j :: 0 <= j < rowJ ==> row[j] == Binomial(rowI, j)
      {
        row := row + [prevRow[rowJ - 1] + prevRow[rowJ]];
        rowJ := rowJ + 1;
      }
      row := row + [1];
      assert row == Row(rowI);
      prevRow := row;
      rowI := rowI + 1;
    }
  }
}
