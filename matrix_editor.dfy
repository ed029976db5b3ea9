/** The judgment edit of `MatrixEditor`: `handleChange(i, j, val)` clones the
    matrix row by row, writes `val` at row `i`, column `j` and `reciprocal(val)` at
    row `j`, column `i` of the clone, and hands the clone on. The matrix is an
    array of row arrays, as in the source; the matrix it was given is left alone. */
module MatrixEditor {
  import opened Matrices

  /** The row arrays of `m`. */
  ghost function RowSet(m: array<array<real>>): set<array<real>>
    reads m
  {
    set k | 0 <= k < m.Length :: m[k]
  }

  /** The numbers `m` holds, as a value. */
  ghost function Cells(m: array<array<real>>): Matrix
    reads m, RowSet(m)
  {
    seq(m.Length, k requires 0 <= k < m.Length reads m, RowSet(m) => m[k][..])
  }

  /** No two rows of `m` are the same array, so a write to one row leaves the others alone. */
  ghost predicate DistinctRows(m: array<array<real>>)
    reads m
  {
    forall a, b :: 0 <= a < b < m.Length ==> m[a] != m[b]
  }

  /** `row.slice()`: a fresh array with the same numbers. */
  method CopyRow(row: array<real>) returns (r: array<real>)
    ensures fresh(r)
    ensures r[..] == row[..]
  {
    var s := row[..];
    r := new real[|s|](k requires 0 <= k < |s| => s[k]);
  }

  /** `cloneMatrix(M)`, that is `M.map(r => r.slice())`: a fresh outer array of fresh,
      pairwise distinct rows holding the same numbers. */
  method CloneMatrix(m: array<array<real>>) returns (c: array<array<real>>)
    ensures fresh(c) && c.Length == m.Length
    ensures forall k :: 0 <= k < c.Length ==> fresh(c[k])
    ensures DistinctRows(c)
    ensures Cells(c) == Cells(m)
  {
    var rows: seq<array<real>> := [];
    var k := 0;
    while k < m.Length
      invariant 0 <= k <= m.Length && |rows| == k
      invariant forall t :: 0 <= t < k ==> fresh(rows[t])
      invariant forall t :: 0 <= t < k ==> rows[t][..] == m[t][..]
      invariant forall t, u :: 0 <= t < u < k ==> rows[t] != rows[u]
    {
      var r := CopyRow(m[k]);
      rows := rows + [r];
      k := k + 1;
    }
    c := new array<real>[m.Length](t requires 0 <= t < |rows| => rows[t]);
    assert forall t :: 0 <= t < c.Length ==> c[t] == rows[t];
  }

  /** `handleChange(i, j, val)`: the new matrix is the clone with the judgment and
      its reciprocal written in, which is `SetJudgment` of the old numbers; the given
      matrix and its rows are unchanged, since only fresh arrays are written. */
  method HandleChange(matrix: array<array<real>>, i: nat, j: nat, val: real) returns (m: array<array<real>>)
    requires i < matrix.Length && j < matrix.Length
    requires j < matrix[i].Length && i < matrix[j].Length
    ensures fresh(m) && forall k :: 0 <= k < m.Length ==> fresh(m[k])
    ensures DistinctRows(m)
    ensures Cells(m) == SetJudgment(Cells(matrix), i, j, val)
    ensures unchanged(matrix) && forall k :: 0 <= k < matrix.Length ==> unchanged(matrix[k])
  {
    ghost var before := Cells(matrix);
    m := CloneMatrix(matrix);
    assert forall k :: 0 <= k < m.Length ==> Cells(m)[k] == m[k][..];
    assert forall k :: 0 <= k < m.Length ==> m[k][..] == before[k];
    ghost var first := before[i := before[i][j := val]];
    m[i][j] := val;
    forall k | 0 <= k < m.Length ensures m[k][..] == first[k] {
      if k != i {
        assert m[k] != m[i];
        assert m[k][..] == before[k];
      }
    }
    ghost var second := first[j := first[j][i := Reciprocal(val)]];
    assert m[j][..] == first[j];
    m[j][i] := Reciprocal(val);
    forall k | 0 <= k < m.Length ensures m[k][..] == second[k] {
      if k != j {
        assert m[k] != m[j];
        assert m[k][..] == first[k];
      }
    }
    assert Cells(m) == second;
  }
}
