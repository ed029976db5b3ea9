/** Priority derivation, `weightsFromMatrix`: the geometric mean of each row,
    normalised by the sum of the means.

    The n-th root, `Math.pow(p, 1/n)`, is the one step exact real arithmetic cannot
    express. The model takes it as a parameter `root`, applied as `root(p, n)`; the
    facts proved here hold for every `root` that obeys `RootLaws`, the real n-th
    root among them. */
module Priorities {
  import opened Folds
  import opened Matrices

  /** The laws of the n-th root that the proofs rely on. */
  ghost predicate RootLaws(root: (real, nat) -> real)
  {
    (forall x: real, n: nat :: x >= 0.0 ==> root(x, n) >= 0.0) &&
    (forall x: real, n: nat :: x > 0.0 ==> root(x, n) > 0.0) &&
    (forall n: nat :: root(1.0, n) == 1.0)
  }

  /** `M.map(row => Math.pow(row.reduce((a, b) => a * b, 1), 1/n))` with `n = M.length`. */
  function GeometricMeans(m: Matrix, root: (real, nat) -> real): (gm: seq<real>)
    ensures |gm| == |m|
    ensures forall i :: 0 <= i < |m| ==> gm[i] == root(Product(m[i]), |m|)
  {
    seq(|m|, i requires 0 <= i < |m| => root(Product(m[i]), |m|))
  }

  /** `gm.reduce((a, b) => a + b, 0) || 1`: a zero sum is replaced by one. */
  function Divisor(gm: seq<real>): (s: real)
    ensures s != 0.0
    ensures Sum(gm) != 0.0 ==> s == Sum(gm)
    ensures Sum(gm) == 0.0 ==> s == 1.0
  {
    if Sum(gm) == 0.0 then 1.0 else Sum(gm)
  }

  /** `weightsFromMatrix(M)`: empty for the empty matrix, and otherwise one weight
      per row, proportional to that row's geometric mean. */
  function WeightsFromMatrix(m: Matrix, root: (real, nat) -> real): (w: seq<real>)
    ensures |w| == |m|
    ensures forall k :: 0 <= k < |m| ==> w[k] * Divisor(GeometricMeans(m, root)) == GeometricMeans(m, root)[k]
  {
    if |m| == 0 then []
    else DivideAll(GeometricMeans(m, root), Divisor(GeometricMeans(m, root)))
  }

  /** The uniform weight vector `[1/n, ..., 1/n]`. */
  function Uniform(n: nat): (w: seq<real>)
    requires n > 0
    ensures |w| == n
    ensures forall k :: 0 <= k < n ==> w[k] * n as real == 1.0
  {
    Constant(n, 1.0 / n as real)
  }

  /** The weights keep the ratios of the geometric means: rows `a` and `b` compare
      in the weights exactly as their means do. */
  lemma WeightsKeepRatios(m: Matrix, root: (real, nat) -> real, a: nat, b: nat)
    requires a < |m| && b < |m|
    ensures WeightsFromMatrix(m, root)[a] * GeometricMeans(m, root)[b]
         == WeightsFromMatrix(m, root)[b] * GeometricMeans(m, root)[a]
  {
    var s := Divisor(GeometricMeans(m, root));
    CrossMultiply(WeightsFromMatrix(m, root)[a], WeightsFromMatrix(m, root)[b], s,
                  GeometricMeans(m, root)[a], GeometricMeans(m, root)[b]);
  }

  /** `x * s == gx` and `y * s == gy` give `x * gy == y * gx`. */
  lemma CrossMultiply(x: real, y: real, s: real, gx: real, gy: real)
    requires x * s == gx && y * s == gy
    ensures x * gy == y * gx
  {
    calc {
      x * gy;
      x * (y * s);
      y * (x * s);
      y * gx;
    }
  }

  /** Normalisation: when the means do not sum to zero the weights sum to one;
      when they do, the divisor falls back to one and the weights are the raw means. */
  lemma WeightsNormalised(m: Matrix, root: (real, nat) -> real)
    ensures Sum(GeometricMeans(m, root)) != 0.0 ==> Sum(WeightsFromMatrix(m, root)) == 1.0
    ensures Sum(GeometricMeans(m, root)) == 0.0 ==> WeightsFromMatrix(m, root) == GeometricMeans(m, root)
  {
    var gm := GeometricMeans(m, root);
    if |m| == 0 {
      assert gm == [];
    } else if Sum(gm) != 0.0 {
      var w := WeightsFromMatrix(m, root);
      assert w == DivideAll(gm, Sum(gm));
      SumDivideAll(gm, Sum(gm));
      assert (Sum(w) - 1.0) * Sum(gm) == 0.0;
    } else {
      assert WeightsFromMatrix(m, root) == DivideAll(gm, 1.0);
    }
  }

  /** For a matrix without negative entries the weights are non-negative, and they
      either sum to one or, when every geometric mean is zero, are the zero vector. */
  lemma WeightsOfNonNegativeMatrix(m: Matrix, root: (real, nat) -> real)
    requires RootLaws(root) && IsNonNegative(m)
    ensures forall k :: 0 <= k < |m| ==> WeightsFromMatrix(m, root)[k] >= 0.0
    ensures Sum(GeometricMeans(m, root)) != 0.0 ==> Sum(WeightsFromMatrix(m, root)) == 1.0
    ensures Sum(GeometricMeans(m, root)) == 0.0 ==> WeightsFromMatrix(m, root) == Zeros(|m|)
  {
    var gm := GeometricMeans(m, root);
    forall i | 0 <= i < |m| ensures gm[i] >= 0.0 {
      ProductSign(m[i]);
    }
    SumOfNonNegative(gm);
    WeightsNormalised(m, root);
  }

  /** For a non-empty matrix of positive judgments every weight is positive and the
      weights sum to one. */
  lemma WeightsOfPositiveMatrix(m: Matrix, root: (real, nat) -> real)
    requires RootLaws(root) && IsPositive(m) && |m| > 0
    ensures forall k :: 0 <= k < |m| ==> WeightsFromMatrix(m, root)[k] > 0.0
    ensures Sum(WeightsFromMatrix(m, root)) == 1.0
  {
    var gm := GeometricMeans(m, root);
    forall i | 0 <= i < |m| ensures gm[i] > 0.0 {
      ProductSign(m[i]);
    }
    SumOfNonNegative(gm);
    assert gm[0] != 0.0;
    assert Sum(gm) > 0.0;
    WeightsNormalised(m, root);
  }

  /** The "no judgment yet" matrix of order `n >= 1` gives every row the weight `1/n`. */
  lemma WeightsOfInitialMatrix(n: nat, root: (real, nat) -> real)
    requires RootLaws(root) && n > 0
    ensures WeightsFromMatrix(InitializePairwise(n), root) == Uniform(n)
  {
    var m := InitializePairwise(n);
    var gm := GeometricMeans(m, root);
    forall i | 0 <= i < n ensures gm[i] == 1.0 {
      ProductOfOnes(m[i]);
    }
    SumOfConstant(gm, 1.0);
    var w := WeightsFromMatrix(m, root);
    forall k | 0 <= k < n ensures w[k] == Uniform(n)[k] {
      assert w[k] * n as real == 1.0;
    }
  }
}
