/** Left folds over sequences of reals: the two `reduce` shapes the AHP helpers use,
    `xs.reduce((a, b) => a + b, 0)` and `xs.reduce((a, b) => a * b, 1)`, and the
    facts about them that the priority and consistency proofs rely on. */
module Folds {

  /** `xs.reduce((a, b) => a + b, 0)`, folded from the left. */
  function Sum(xs: seq<real>): real
  {
    if |xs| == 0 then 0.0 else Sum(xs[..|xs| - 1]) + xs[|xs| - 1]
  }

  /** `xs.reduce((a, b) => a * b, 1)`, folded from the left. */
  function Product(xs: seq<real>): real
  {
    if |xs| == 0 then 1.0 else Product(xs[..|xs| - 1]) * xs[|xs| - 1]
  }

  /** `xs.map(x => x / d)`. */
  function DivideAll(xs: seq<real>, d: real): (ys: seq<real>)
    requires d != 0.0
    ensures |ys| == |xs|
    ensures forall k :: 0 <= k < |xs| ==> ys[k] * d == xs[k]
  {
    seq(|xs|, k requires 0 <= k < |xs| => xs[k] / d)
  }

  /** The sequence of `n` copies of `c`. */
  function Constant(n: nat, c: real): (ys: seq<real>)
    ensures |ys| == n
    ensures forall k :: 0 <= k < n ==> ys[k] == c
  {
    seq(n, _ => c)
  }

  /** Dividing every term by `d` divides the sum by `d`. */
  lemma {:induction false} SumDivideAll(xs: seq<real>, d: real)
    requires d != 0.0
    ensures Sum(DivideAll(xs, d)) * d == Sum(xs)
  {
    if |xs| > 0 {
      var n := |xs| - 1;
      assert DivideAll(xs, d)[..n] == DivideAll(xs[..n], d);
      SumDivideAll(xs[..n], d);
      calc {
        Sum(DivideAll(xs, d)) * d;
        (Sum(DivideAll(xs[..n], d)) + xs[n] / d) * d;
        Sum(DivideAll(xs[..n], d)) * d + (xs[n] / d) * d;
        Sum(xs[..n]) + xs[n];
      }
    }
  }

  /** A sequence whose terms are all `c` sums to `|xs| * c`. */
  lemma {:induction false} SumOfConstant(xs: seq<real>, c: real)
    requires forall k :: 0 <= k < |xs| ==> xs[k] == c
    ensures Sum(xs) == |xs| as real * c
  {
    if |xs| > 0 {
      SumOfConstant(xs[..|xs| - 1], c);
    }
  }

  /** Non-negative terms have a non-negative sum, which is zero only when every term is. */
  lemma {:induction false} SumOfNonNegative(xs: seq<real>)
    requires forall k :: 0 <= k < |xs| ==> xs[k] >= 0.0
    ensures Sum(xs) >= 0.0
    ensures Sum(xs) == 0.0 <==> forall k :: 0 <= k < |xs| ==> xs[k] == 0.0
  {
    if |xs| > 0 {
      var n := |xs| - 1;
      SumOfNonNegative(xs[..n]);
      if Sum(xs) == 0.0 {
        assert xs[n] == 0.0 && Sum(xs[..n]) == 0.0;
        forall k | 0 <= k < |xs| ensures xs[k] == 0.0 {
          if k < n { assert xs[..n][k] == xs[k]; }
        }
      } else {
        assert Sum(xs) > 0.0;
      }
    }
  }

  /** A product of non-negative factors is non-negative, and positive when every factor is. */
  lemma {:induction false} ProductSign(xs: seq<real>)
    requires forall k :: 0 <= k < |xs| ==> xs[k] >= 0.0
    ensures Product(xs) >= 0.0
    ensures (forall k :: 0 <= k < |xs| ==> xs[k] > 0.0) ==> Product(xs) > 0.0
  {
    if |xs| > 0 {
      var n := |xs| - 1;
      ProductSign(xs[..n]);
      if forall k :: 0 <= k < |xs| ==> xs[k] > 0.0 {
        assert forall k :: 0 <= k < n ==> xs[..n][k] > 0.0;
      }
    }
  }

  /** A product of ones is one. */
  lemma {:induction false} ProductOfOnes(xs: seq<real>)
    requires forall k :: 0 <= k < |xs| ==> xs[k] == 1.0
    ensures Product(xs) == 1.0
  {
    if |xs| > 0 {
      ProductOfOnes(xs[..|xs| - 1]);
    }
  }
}
