/** Pairwise-comparison matrices as the helpers of `App.jsx` build and edit them:
    plain arrays of rows of numbers, with the reciprocal judgment `reciprocal(val)`
    mirrored across the diagonal. */
module Matrices {
  import opened Folds

  /** A matrix is an array of rows. Nothing forces the rows to have the matrix's
      order; the helpers that read a matrix walk each row as far as it goes. */
  type Matrix = seq<seq<real>>

  /** The values the judgment selector offers: Saaty's scale 1 to 9. */
  const SaatyScale: seq<real> := [1.0, 2.0, 3.0, 4.0, 5.0, 6.0, 7.0, 8.0, 9.0]

  /** `zeros(n)`: the zero vector of length `n`, the fill `Constant` with 0. */
  function Zeros(n: nat): (z: seq<real>)
    ensures |z| == n
    ensures forall k :: 0 <= k < n ==> z[k] == 0.0
  {
    Constant(n, 0.0)
  }

  /** `reciprocal(x)`: `1/x`, except that zero maps to zero instead of failing. */
  function Reciprocal(x: real): (r: real)
    ensures r == 0.0 <==> x == 0.0
    ensures x > 0.0 <==> r > 0.0
  {
    if x == 0.0 then 0.0 else 1.0 / x
  }

  /** A non-zero value times its reciprocal is one. */
  lemma ReciprocalCancels(x: real)
    requires x != 0.0
    ensures x * Reciprocal(x) == 1.0 && Reciprocal(x) * x == 1.0
  {
  }

  /** Every row has `n` entries and there are `n` rows. */
  predicate IsSquare(m: Matrix, n: nat)
  {
    |m| == n && forall i :: 0 <= i < n ==> |m[i]| == n
  }

  /** The reciprocal invariant of a judgment matrix: square, every judgment non-zero,
      and each judgment's mirror image its reciprocal. `ReciprocalProducts` restates
      it as "each judgment times its mirror image is one". */
  predicate IsReciprocal(m: Matrix)
  {
    IsSquare(m, |m|) && forall i, j :: 0 <= i < |m| && 0 <= j < |m| ==> MirroredAt(m, i, j)
  }

  /** The judgment at row `i`, column `j` is non-zero and its mirror image holds its reciprocal. */
  predicate MirroredAt(m: Matrix, i: int, j: int)
  {
    0 <= i < |m| && 0 <= j < |m| && j < |m[i]| && i < |m[j]| &&
    m[i][j] != 0.0 && m[j][i] == Reciprocal(m[i][j])
  }

  /** Every entry on the diagonal is one. */
  predicate HasUnitDiagonal(m: Matrix)
  {
    forall i :: 0 <= i < |m| && i < |m[i]| ==> m[i][i] == 1.0
  }

  /** Every entry present is strictly positive. */
  predicate IsPositive(m: Matrix)
  {
    forall i, j :: 0 <= i < |m| && 0 <= j < |m[i]| ==> m[i][j] > 0.0
  }

  /** Every entry present is non-negative. */
  predicate IsNonNegative(m: Matrix)
  {
    forall i, j :: 0 <= i < |m| && 0 <= j < |m[i]| ==> m[i][j] >= 0.0
  }

  /** `initializePairwise(n)`: the `n` by `n` matrix of "no judgment yet". The source
      writes `i === j ? 1 : 1`, so the diagonal and every other cell are both 1. */
  function InitializePairwise(n: nat): (m: Matrix)
    ensures IsSquare(m, n)
    ensures forall i, j :: 0 <= i < n && 0 <= j < n ==> m[i][j] == 1.0
  {
    seq(n, i => seq(n, j => if i == j then 1.0 else 1.0))
  }

  /** The matrix `handleChange(i, j, val)` produces from a clone of `m`: first
      `val` is written at row `i`, column `j`, then `reciprocal(val)` at row `j`,
      column `i` (so when `i == j` the second write wins). */
  function SetJudgment(m: Matrix, i: nat, j: nat, val: real): (r: Matrix)
    requires i < |m| && j < |m| && j < |m[i]| && i < |m[j]|
    ensures |r| == |m|
    ensures forall a :: 0 <= a < |m| ==> |r[a]| == |m[a]|
    ensures r[j][i] == Reciprocal(val)
    ensures i != j ==> r[i][j] == val
    ensures forall a, b :: 0 <= a < |m| && 0 <= b < |m[a]| && (a != i || b != j) && (a != j || b != i) ==>
              r[a][b] == m[a][b]
  {
    var first := m[i := m[i][j := val]];
    first[j := first[j][i := Reciprocal(val)]]
  }

  /** `reciprocal` undoes itself. */
  lemma ReciprocalInvolutive(x: real)
    ensures Reciprocal(Reciprocal(x)) == x
  {
  }

  /** The all-ones matrix satisfies the reciprocal invariant, has a unit diagonal
      and only positive entries. */
  lemma InitializePairwiseIsReciprocal(n: nat)
    ensures IsReciprocal(InitializePairwise(n))
    ensures HasUnitDiagonal(InitializePairwise(n))
    ensures IsPositive(InitializePairwise(n))
  {
  }

  /** The reciprocal invariant is exactly "each judgment times its mirror image is one". */
  lemma ReciprocalProducts(m: Matrix)
    requires IsSquare(m, |m|)
    ensures IsReciprocal(m) <==> forall i, j :: 0 <= i < |m| && 0 <= j < |m| ==> m[i][j] * m[j][i] == 1.0
  {
    if IsReciprocal(m) {
      forall i, j | 0 <= i < |m| && 0 <= j < |m| ensures m[i][j] * m[j][i] == 1.0 {
        assert MirroredAt(m, i, j);
        ProductOneIsReciprocal(m[i][j], m[j][i]);
      }
    }
    if forall i, j :: 0 <= i < |m| && 0 <= j < |m| ==> m[i][j] * m[j][i] == 1.0 {
      forall i, j | 0 <= i < |m| && 0 <= j < |m| ensures MirroredAt(m, i, j) {
        ProductOneIsReciprocal(m[i][j], m[j][i]);
      }
    }
  }

  /** `x * y == 1` exactly when `x` is non-zero and `y` is its reciprocal. */
  lemma ProductOneIsReciprocal(x: real, y: real)
    ensures x * y == 1.0 <==> x != 0.0 && y == Reciprocal(x)
  {
    if x != 0.0 {
      ReciprocalCancels(x);
    }
    if x * y == 1.0 {
      assert x != 0.0;
      assert y == (x * y) / x;
    }
  }

  /** One mirrored pair of cells after an off-diagonal, non-zero edit is still reciprocal. */
  lemma SetJudgmentPairReciprocal(m: Matrix, i: nat, j: nat, val: real, a: nat, b: nat)
    requires IsReciprocal(m) && i < |m| && j < |m| && i != j && val != 0.0
    requires a < |m| && b < |m|
    ensures MirroredAt(SetJudgment(m, i, j, val), a, b)
  {
    var r := SetJudgment(m, i, j, val);
    assert MirroredAt(m, a, b);
    if a == i && b == j {
      assert r[a][b] == val && r[b][a] == Reciprocal(val);
    } else if a == j && b == i {
      assert r[a][b] == Reciprocal(val) && r[b][a] == val;
      ReciprocalInvolutive(val);
    } else {
      assert r[a][b] == m[a][b] && r[b][a] == m[b][a];
    }
  }

  /** An off-diagonal edit with a non-zero value keeps a reciprocal matrix reciprocal,
      and leaves its diagonal alone. */
  lemma SetJudgmentKeepsReciprocal(m: Matrix, i: nat, j: nat, val: real)
    requires IsReciprocal(m) && i < |m| && j < |m| && i != j && val != 0.0
    ensures IsReciprocal(SetJudgment(m, i, j, val))
    ensures HasUnitDiagonal(m) ==> HasUnitDiagonal(SetJudgment(m, i, j, val))
  {
    var r := SetJudgment(m, i, j, val);
    forall a, b | 0 <= a < |r| && 0 <= b < |r| ensures MirroredAt(r, a, b) {
      SetJudgmentPairReciprocal(m, i, j, val, a, b);
    }
  }

  /** An edit with a positive value keeps every entry positive. */
  lemma SetJudgmentKeepsPositive(m: Matrix, i: nat, j: nat, val: real)
    requires i < |m| && j < |m| && j < |m[i]| && i < |m[j]|
    requires IsPositive(m) && val > 0.0
    ensures IsPositive(SetJudgment(m, i, j, val))
  {
  }

  /** Every value on the selector's scale is a positive judgment, so edits made
      through the selector keep a positive reciprocal matrix positive and reciprocal. */
  lemma SaatyEditKeepsInvariant(m: Matrix, i: nat, j: nat, val: real)
    requires IsReciprocal(m) && IsPositive(m) && i < |m| && j < |m| && i != j
    requires val in SaatyScale
    ensures IsReciprocal(SetJudgment(m, i, j, val)) && IsPositive(SetJudgment(m, i, j, val))
  {
    assert val >= 1.0;
    SetJudgmentKeepsReciprocal(m, i, j, val);
    SetJudgmentKeepsPositive(m, i, j, val);
  }

  /** Writing zero off the diagonal breaks the reciprocal invariant: `reciprocal(0)`
      is 0, so both mirrored cells hold 0 and their product is 0, not 1. */
  lemma SetJudgmentZeroBreaksReciprocal(m: Matrix, i: nat, j: nat)
    requires i < |m| && j < |m| && j < |m[i]| && i < |m[j]| && i != j
    ensures SetJudgment(m, i, j, 0.0)[i][j] == 0.0 && SetJudgment(m, i, j, 0.0)[j][i] == 0.0
    ensures !IsReciprocal(SetJudgment(m, i, j, 0.0))
  {
    var r := SetJudgment(m, i, j, 0.0);
    assert !MirroredAt(r, i, j);
  }
}
