/** Consistency evaluation, `consistencyRatio(M, w)`: the principal-eigenvalue
    estimate lambdaMax, the consistency index CI and the consistency ratio CR against
    Saaty's Random Index, and the badge's acceptance test `CR < 0.1 || n < 3`. */
module Consistency {
  import opened Folds
  import opened Matrices
  import opened Priorities

  /** The result record `{CI, CR, lambdaMax}`. */
  datatype Evaluation = Evaluation(ci: real, cr: real, lambdaMax: real)

  /** Saaty's Random Index by matrix order, the table `RI`; orders above 10 are absent. */
  const RI: map<nat, real> :=
    map[1 := 0.0, 2 := 0.0, 3 := 0.58, 4 := 0.90, 5 := 1.12,
        6 := 1.24, 7 := 1.32, 8 := 1.41, 9 := 1.45, 10 := 1.49]

  /** The value `w[i] || 1e-12` falls back to. */
  const Epsilon: real := 1e-12

  /** The badge's threshold on CR. */
  const Threshold: real := 0.1

  /** `RI[n] || 1`: the tabulated index, or one when the order is missing from the
      table or its index is zero. */
  function RiDivisor(n: nat): (d: real)
    ensures d > 0.0
    ensures 3 <= n <= 10 ==> n in RI && d == RI[n]
    ensures n < 3 || n > 10 ==> d == 1.0
  {
    if n in RI && RI[n] != 0.0 then RI[n] else 1.0
  }

  /** `w[j] || 0`: a weight missing from the vector counts as zero. */
  function WeightOrZero(w: seq<real>, j: nat): (x: real)
    ensures j < |w| ==> x == w[j]
    ensures j >= |w| ==> x == 0.0
  {
    if j < |w| then w[j] else 0.0
  }

  /** `w[i] || 1e-12`: a missing or zero weight is replaced by `1e-12` as a divisor. */
  function WeightOrEpsilon(w: seq<real>, i: nat): (x: real)
    ensures x != 0.0
    ensures i < |w| && w[i] != 0.0 ==> x == w[i]
    ensures i >= |w| || w[i] == 0.0 ==> x == Epsilon
  {
    if i < |w| && w[i] != 0.0 then w[i] else Epsilon
  }

  /** `row.reduce((acc, x, j) => acc + x * (w[j] || 0), 0)`: one entry of `Aw`. */
  function WeightedRowSum(row: seq<real>, w: seq<real>): real
  {
    if |row| == 0 then 0.0
    else WeightedRowSum(row[..|row| - 1], w) + row[|row| - 1] * WeightOrZero(w, |row| - 1)
  }

  /** `Aw`: the matrix applied to the weight vector, row by row. */
  function Aw(m: Matrix, w: seq<real>): (aw: seq<real>)
    ensures |aw| == |m|
  {
    seq(|m|, i requires 0 <= i < |m| => WeightedRowSum(m[i], w))
  }

  /** `ratios`: each entry of `Aw` divided by its row's weight (or by `1e-12`). */
  function Ratios(aw: seq<real>, w: seq<real>): (rs: seq<real>)
    ensures |rs| == |aw|
  {
    seq(|aw|, i requires 0 <= i < |aw| => aw[i] / WeightOrEpsilon(w, i))
  }

  /** `consistencyRatio(M, w)`. Orders below three are consistent by definition;
      from three on, lambdaMax is the mean ratio, CI its excess over `n` per degree
      of freedom, and CR the CI scaled by `RI[n] || 1`. */
  function ConsistencyRatio(m: Matrix, w: seq<real>): (e: Evaluation)
    ensures |m| < 3 ==> e.ci == 0.0 && e.cr == 0.0 && e.lambdaMax == |m| as real
    ensures |m| >= 3 ==> e.lambdaMax * |m| as real == Sum(Ratios(Aw(m, w), w))
    ensures |m| >= 3 ==> e.ci * (|m| - 1) as real == e.lambdaMax - |m| as real
    ensures |m| >= 3 ==> e.cr * RiDivisor(|m|) == e.ci
  {
    var n := |m|;
    if n < 3 then Evaluation(0.0, 0.0, n as real)
    else
      var lambdaMax := Sum(Ratios(Aw(m, w), w)) / n as real;
      var ci := (lambdaMax - n as real) / (n - 1) as real;
      Evaluation(ci, ci / RiDivisor(n), lambdaMax)
  }

  /** The badge's verdict `CR < 0.1 || n < 3`. */
  predicate IsAcceptable(cr: real, n: nat)
  {
    cr < Threshold || n < 3
  }

  /** Beyond the table (order above ten) CR is CI itself, because the lookup
      falls back to one; within it, CR is CI over the tabulated index. */
  lemma RatioScaling(m: Matrix, w: seq<real>)
    requires |m| >= 3
    ensures |m| > 10 ==> ConsistencyRatio(m, w).cr == ConsistencyRatio(m, w).ci
    ensures |m| <= 10 ==> ConsistencyRatio(m, w).cr * RI[|m|] == ConsistencyRatio(m, w).ci
  {
  }

  /** Matrices of order below three are always accepted, whatever the judgments
      and weights. */
  lemma SmallOrderAccepted(m: Matrix, w: seq<real>)
    requires |m| < 3
    ensures ConsistencyRatio(m, w) == Evaluation(0.0, 0.0, |m| as real)
    ensures IsAcceptable(ConsistencyRatio(m, w).cr, |m|)
  {
  }

  /** A row each of whose terms `row[j] * (w[j] || 0)` is `c` weighs `|row| * c`. */
  lemma {:induction false} WeightedRowSumOfConstantTerms(row: seq<real>, w: seq<real>, c: real)
    requires forall j :: 0 <= j < |row| ==> row[j] * WeightOrZero(w, j) == c
    ensures WeightedRowSum(row, w) == |row| as real * c
  {
    if |row| > 0 {
      var n := |row| - 1;
      assert forall j :: 0 <= j < n ==> row[..n][j] == row[j];
      WeightedRowSumOfConstantTerms(row[..n], w, c);
    }
  }

  /** A perfectly consistent judgment set: every judgment is the ratio of the two
      weights it compares. */
  predicate IsConsistentWith(m: Matrix, w: seq<real>)
  {
    IsSquare(m, |m|) && |w| == |m| &&
    (forall k :: 0 <= k < |w| ==> w[k] > 0.0) &&
    forall i, j :: 0 <= i < |m| && 0 <= j < |m| ==> m[i][j] * w[j] == w[i]
  }

  /** In a consistent judgment set `w` is an eigenvector: `Aw == n * w`. */
  lemma ConsistentAw(m: Matrix, w: seq<real>)
    requires IsConsistentWith(m, w)
    ensures forall i :: 0 <= i < |m| ==> Aw(m, w)[i] == |m| as real * w[i]
  {
    forall i | 0 <= i < |m| ensures Aw(m, w)[i] == |m| as real * w[i] {
      forall j | 0 <= j < |m[i]| ensures m[i][j] * WeightOrZero(w, j) == w[i] {
        assert WeightOrZero(w, j) == w[j];
      }
      WeightedRowSumOfConstantTerms(m[i], w, w[i]);
    }
  }

  /** `(n * d) / d == n` for positive `d`. */
  lemma QuotientOfMultiple(s: real, d: real, n: real)
    requires d > 0.0 && s == n * d
    ensures s / d == n
  {
  }

  /** When `aw == c * w` for positive weights, every ratio is `c`. */
  lemma {:induction false} RatiosOfEigenvector(aw: seq<real>, w: seq<real>, c: real)
    requires |w| == |aw| && forall k :: 0 <= k < |w| ==> w[k] > 0.0
    requires forall i :: 0 <= i < |aw| ==> aw[i] == c * w[i]
    ensures Ratios(aw, w) == Constant(|aw|, c)
  {
    forall i | 0 <= i < |aw| ensures Ratios(aw, w)[i] == c {
      assert WeightOrEpsilon(w, i) == w[i];
      QuotientOfMultiple(aw[i], w[i], c);
    }
  }

  /** In a consistent judgment set every ratio `Aw[i] / w[i]` is the order. */
  lemma ConsistentRatios(m: Matrix, w: seq<real>)
    requires IsConsistentWith(m, w)
    ensures Ratios(Aw(m, w), w) == Constant(|m|, |m| as real)
  {
    ConsistentAw(m, w);
    RatiosOfEigenvector(Aw(m, w), w, |m| as real);
  }

  /** When every ratio equals the order, lambdaMax is the order and CI and CR vanish. */
  lemma ScoreOfEqualRatios(m: Matrix, w: seq<real>)
    requires |m| >= 3 && Ratios(Aw(m, w), w) == Constant(|m|, |m| as real)
    ensures ConsistencyRatio(m, w) == Evaluation(0.0, 0.0, |m| as real)
  {
    var n := |m| as real;
    SumOfConstant(Ratios(Aw(m, w), w), n);
    QuotientOfMultiple(Sum(Ratios(Aw(m, w), w)), n, n);
  }

  /** For judgments that agree exactly with the weights, lambdaMax equals the order,
      CI and CR are zero and the badge accepts: the estimator reproduces Saaty's
      characterisation of a consistent matrix. */
  lemma ConsistentJudgmentsScoreZero(m: Matrix, w: seq<real>)
    requires IsConsistentWith(m, w)
    ensures ConsistencyRatio(m, w).lambdaMax == |m| as real
    ensures ConsistencyRatio(m, w).ci == 0.0 && ConsistencyRatio(m, w).cr == 0.0
    ensures IsAcceptable(ConsistencyRatio(m, w).cr, |m|)
  {
    if |m| >= 3 {
      ConsistentRatios(m, w);
      ScoreOfEqualRatios(m, w);
    }
  }

  /** The "no judgment yet" matrix with its own uniform weights scores lambdaMax = n,
      CI = CR = 0, and is accepted. */
  lemma InitialMatrixScoresZero(n: nat)
    requires n > 0
    ensures ConsistencyRatio(InitializePairwise(n), Uniform(n)).lambdaMax == n as real
    ensures ConsistencyRatio(InitializePairwise(n), Uniform(n)).ci == 0.0
    ensures ConsistencyRatio(InitializePairwise(n), Uniform(n)).cr == 0.0
    ensures IsAcceptable(ConsistencyRatio(InitializePairwise(n), Uniform(n)).cr, n)
  {
    var m, w := InitializePairwise(n), Uniform(n);
    forall i, j | 0 <= i < n && 0 <= j < n ensures m[i][j] * w[j] == w[i] {
      assert w[i] == w[j];
    }
    ConsistentJudgmentsScoreZero(m, w);
  }

  /** The whole pipeline on the "no judgment yet" matrix of any order: the weights
      it derives are uniform and its CR is zero, so the badge accepts. */
  lemma InitialMatrixPipeline(n: nat, root: (real, nat) -> real)
    requires RootLaws(root)
    ensures ConsistencyRatio(InitializePairwise(n), WeightsFromMatrix(InitializePairwise(n), root)).cr == 0.0
    ensures IsAcceptable(ConsistencyRatio(InitializePairwise(n), WeightsFromMatrix(InitializePairwise(n), root)).cr, n)
  {
    if n > 0 {
      WeightsOfInitialMatrix(n, root);
      InitialMatrixScoresZero(n);
    }
  }

  /** The fallbacks at work on a weight vector that is empty or all zero (as
      `weightsFromMatrix` returns when every geometric mean is zero): every `Aw`
      entry is zero, so lambdaMax is 0, CI is `-n/(n-1)`, CR is negative and the
      badge accepts the matrix whatever its judgments. */
  lemma ZeroWeightsAccepted(m: Matrix, w: seq<real>)
    requires |m| >= 3
    requires forall k :: 0 <= k < |w| ==> w[k] == 0.0
    ensures ConsistencyRatio(m, w).lambdaMax == 0.0
    ensures ConsistencyRatio(m, w).ci * (|m| - 1) as real == - (|m| as real)
    ensures ConsistencyRatio(m, w).cr < 0.0
    ensures IsAcceptable(ConsistencyRatio(m, w).cr, |m|)
  {
    var aw := Aw(m, w);
    forall i | 0 <= i < |m| ensures aw[i] == 0.0 {
      forall j | 0 <= j < |m[i]| ensures m[i][j] * WeightOrZero(w, j) == 0.0 {
        assert WeightOrZero(w, j) == 0.0;
      }
      WeightedRowSumOfConstantTerms(m[i], w, 0.0);
    }
    var rs := Ratios(aw, w);
    forall i | 0 <= i < |m| ensures rs[i] == 0.0 {
      assert rs[i] == 0.0 / WeightOrEpsilon(w, i);
    }
    SumOfConstant(rs, 0.0);
    var e := ConsistencyRatio(m, w);
    assert e.ci < 0.0;
  }
}
