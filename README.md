# AHP matrix engine — a Dafny model

This project models the Analytic Hierarchy Process (AHP) core of the `ahp-mvp-pwa` app, found in
`src/App.jsx`. A decision maker compares items pairwise on Saaty's 1–9 scale. Each comparison is
stored in a judgment matrix together with its reciprocal on the mirrored cell. The app derives
priority weights from the row geometric means, rates the judgments with the consistency ratio
(CR) against Saaty's Random Index, and shows a badge that accepts the matrix when `CR < 0.1` or
when the order is below three. The app starts from a default hierarchy: the objective
"Objetivo", three criteria and three alternatives, with every matrix all ones.

Modules:

- `Folds` (`folds.dfy`): the left folds `Sum` and `Product` that the source writes with
  `reduce`, and element-wise division.
- `Matrices` (`matrices.dfy`): `zeros`, `reciprocal`, `initializePairwise`, the judgment edit as
  a value (`SetJudgment`), and the reciprocal invariant with the facts about it.
- `Priorities` (`priorities.dfy`): `weightsFromMatrix`. The n-th root `Math.pow(p, 1/n)` is a
  function parameter `root`. The lemmas hold for every `root` that satisfies `RootLaws`:
  non-negative on non-negative input, positive on positive input, and `root(1, n) == 1`.
- `Consistency` (`consistency.dfy`): the `RI` table, `consistencyRatio` with its
  `|| 0`, `|| 1e-12` and `|| 1` fallbacks, and the badge verdict.
- `MatrixEditor` (`matrix_editor.dfy`): `cloneMatrix` and `handleChange`, written as
  imperative code over an array of row arrays. They are proved against `SetJudgment` and leave
  the matrix they are given untouched.
- `DataModel` (`data_model.dfy`): the `uid` counter as a class, nodes as objects whose child
  list is replaced in place, `makeNode`, `createDefaultTree` and `createDefaultState`.

Where the code departs from what Saaty's method assumes, the model follows the code:

- Saaty's method assumes positive judgments, each mirrored by its reciprocal. The code maps
  `reciprocal(0)` to 0 instead of refusing zero. `SetJudgmentZeroBreaksReciprocal` shows the
  consequence: both mirrored cells hold 0, and the reciprocal invariant no longer holds.
- Saaty's Random Index is tabulated only up to order 10. For larger orders the code divides by
  `RI[n] || 1`, that is by 1, rather than reporting an unsupported order. `RiDivisor` and
  `RatioScaling` state this.
- The geometric-mean method assumes positive entries. The code derives weights from any
  numbers. `WeightsOfNonNegativeMatrix` and `ZeroWeightsAccepted` describe what happens when
  an entry is 0.

## Model

| member | source | states |
|---|---|---|
| Folds.Sum | ahp-mvp-pwa/src/App.jsx:35 | the definition of `reduce((a, b) => a + b, 0)` as a left fold, used again at line 42; its properties are stated by `SumOfConstant`, `SumOfNonNegative` and `SumDivideAll` |
| Folds.Product | ahp-mvp-pwa/src/App.jsx:34 | the definition of `row.reduce((a, b) => a * b, 1)` as a left fold; its properties are stated by `ProductSign` and `ProductOfOnes` |
| Folds.DivideAll | ahp-mvp-pwa/src/App.jsx:36 | each quotient times the divisor gives back the original entry; the length is kept |
| Folds.Constant | ahp-mvp-pwa/src/App.jsx:26 | a vector of the given length whose entries all equal the given value |
| Folds.SumDivideAll | ahp-mvp-pwa/src/App.jsx:35-36 | the sum of the divided vector times the divisor is the sum of the original |
| Folds.SumOfConstant | ahp-mvp-pwa/src/App.jsx:42 | the `reduce` sum of a vector of equal entries `c` is its length times `c` |
| Folds.SumOfNonNegative | ahp-mvp-pwa/src/App.jsx:35 | a sum of non-negative terms is non-negative, and it is zero exactly when every term is zero |
| Folds.ProductSign | ahp-mvp-pwa/src/App.jsx:34 | a row product is non-negative for non-negative entries and positive for positive entries |
| Folds.ProductOfOnes | ahp-mvp-pwa/src/App.jsx:34 | a row of ones has product one |
| Matrices.SaatyScale | ahp-mvp-pwa/src/App.jsx:11-21 | the values 1 to 9 the selector offers; `SaatyEditKeepsInvariant` states that each keeps a positive reciprocal matrix positive and reciprocal |
| Matrices.Zeros | ahp-mvp-pwa/src/App.jsx:26 | `zeros(n)` has length `n` and every entry 0 |
| Matrices.Reciprocal | ahp-mvp-pwa/src/App.jsx:28 | the result is zero exactly when the input is zero, and positive exactly when the input is positive |
| Matrices.ReciprocalCancels | ahp-mvp-pwa/src/App.jsx:28 | a non-zero value times its reciprocal is one, in either order |
| Matrices.ReciprocalInvolutive | ahp-mvp-pwa/src/App.jsx:28 | `reciprocal(reciprocal(x)) == x` for every `x`, zero included |
| Matrices.ProductOneIsReciprocal | ahp-mvp-pwa/src/App.jsx:28 | `x * y == 1` holds exactly when `x` is non-zero and `y == reciprocal(x)` |
| Matrices.InitializePairwise | ahp-mvp-pwa/src/App.jsx:29-31 | an `n` by `n` matrix with every cell 1, the diagonal included |
| Matrices.InitializePairwiseIsReciprocal | ahp-mvp-pwa/src/App.jsx:29-31 | the initial matrix satisfies the reciprocal invariant, has a unit diagonal and has only positive entries |
| Matrices.ReciprocalProducts | ahp-mvp-pwa/src/App.jsx:105 | on a square matrix, the reciprocal invariant holds exactly when every judgment times its mirror is one |
| Matrices.SetJudgment | ahp-mvp-pwa/src/App.jsx:105 | the edit puts `reciprocal(val)` at (j,i) and, off the diagonal, `val` at (i,j); every other cell and every row length is unchanged |
| Matrices.SetJudgmentPairReciprocal | ahp-mvp-pwa/src/App.jsx:105 | after an off-diagonal non-zero edit of a reciprocal matrix, any one mirrored pair of cells is still reciprocal |
| Matrices.SetJudgmentKeepsReciprocal | ahp-mvp-pwa/src/App.jsx:105-107 | an off-diagonal non-zero edit preserves the reciprocal invariant and a unit diagonal |
| Matrices.SetJudgmentKeepsPositive | ahp-mvp-pwa/src/App.jsx:105 | an edit with a positive value preserves positivity of all entries |
| Matrices.SaatyEditKeepsInvariant | ahp-mvp-pwa/src/App.jsx:105-107 | an off-diagonal edit with a value from the 1–9 selector keeps a positive reciprocal matrix positive and reciprocal |
| Matrices.SetJudgmentZeroBreaksReciprocal | ahp-mvp-pwa/src/App.jsx:28 | writing 0 leaves 0 in both mirrored cells, and the result is not reciprocal |
| Priorities.GeometricMeans | ahp-mvp-pwa/src/App.jsx:34 | one mean per row, each the root of the row's product taken with the matrix order |
| Priorities.Divisor | ahp-mvp-pwa/src/App.jsx:35 | the divisor is never zero: it is the sum of the means when that sum is non-zero, and 1 when it is zero |
| Priorities.WeightsFromMatrix | ahp-mvp-pwa/src/App.jsx:32-37 | one weight per row; each weight times the divisor is that row's geometric mean |
| Priorities.WeightsKeepRatios | ahp-mvp-pwa/src/App.jsx:32-37 | any two weights stand in the same ratio as their rows' geometric means |
| Priorities.WeightsNormalised | ahp-mvp-pwa/src/App.jsx:35-36 | the weights sum to one when the means' sum is non-zero, and otherwise they are the raw means |
| Priorities.WeightsOfNonNegativeMatrix | ahp-mvp-pwa/src/App.jsx:32-37 | for non-negative judgments the weights are non-negative, and they either sum to one or are all zero |
| Priorities.WeightsOfPositiveMatrix | ahp-mvp-pwa/src/App.jsx:32-37 | for a non-empty positive matrix every weight is positive and the weights sum to one |
| Priorities.WeightsOfInitialMatrix | ahp-mvp-pwa/src/App.jsx:29-37 | the all-ones matrix of order `n` gets the uniform weights `1/n` |
| Consistency.RI | ahp-mvp-pwa/src/App.jsx:24 | the Random Index table for orders 1 to 10, value for value; `RiDivisor` and `RatioScaling` state how it is used |
| Consistency.RiDivisor | ahp-mvp-pwa/src/App.jsx:44 | `RI[n] or 1` is positive; it is the tabulated index for orders 3 to 10 and 1 for every other order |
| Consistency.WeightOrZero | ahp-mvp-pwa/src/App.jsx:40 | `w[j] or 0` is the weight when present and 0 beyond the vector |
| Consistency.WeightOrEpsilon | ahp-mvp-pwa/src/App.jsx:41 | `w[i] or 1e-12` is never zero; it is the weight when present and non-zero, and `1e-12` otherwise |
| Consistency.WeightedRowSum | ahp-mvp-pwa/src/App.jsx:40 | the definition of the row fold `acc + x * (w[j] or 0)` from the left; `WeightedRowSumOfConstantTerms` states its value on equal terms |
| Consistency.Aw | ahp-mvp-pwa/src/App.jsx:40 | one entry per matrix row |
| Consistency.Ratios | ahp-mvp-pwa/src/App.jsx:41 | one ratio per entry of `Aw` |
| Consistency.ConsistencyRatio | ahp-mvp-pwa/src/App.jsx:38-46 | below order 3: CI = CR = 0 and lambdaMax = n; from order 3: n·lambdaMax is the sum of the ratios, (n−1)·CI = lambdaMax − n, and CR·(`RI[n] or 1`) = CI |
| Consistency.IsAcceptable | ahp-mvp-pwa/src/App.jsx:83 | the definition of the badge verdict `CR < 0.1 or n < 3`; `SmallOrderAccepted`, `ConsistentJudgmentsScoreZero`, `InitialMatrixPipeline` and `ZeroWeightsAccepted` state when it holds |
| Consistency.RatioScaling | ahp-mvp-pwa/src/App.jsx:44 | above order 10, CR equals CI; from 3 to 10, CR times the tabulated RI equals CI |
| Consistency.SmallOrderAccepted | ahp-mvp-pwa/src/App.jsx:39 | every matrix of order below 3 scores (0, 0, n) and the badge accepts it |
| Consistency.WeightedRowSumOfConstantTerms | ahp-mvp-pwa/src/App.jsx:40 | a row whose weighted terms all equal `c` has an `Aw` entry of length times `c` |
| Consistency.ConsistentAw | ahp-mvp-pwa/src/App.jsx:40 | for judgments that are exact weight ratios, `Aw` is `n` times the weights (the weights are an eigenvector) |
| Consistency.RatiosOfEigenvector | ahp-mvp-pwa/src/App.jsx:41 | when `Aw == c·w` with positive weights, every ratio is `c` |
| Consistency.ConsistentRatios | ahp-mvp-pwa/src/App.jsx:40-41 | for judgments that are exact weight ratios, every ratio equals the order |
| Consistency.ScoreOfEqualRatios | ahp-mvp-pwa/src/App.jsx:42-45 | when every ratio equals the order, the evaluation is lambdaMax = n and CI = CR = 0 |
| Consistency.ConsistentJudgmentsScoreZero | ahp-mvp-pwa/src/App.jsx:38-46 | a perfectly consistent matrix has lambdaMax = n and CI = CR = 0, and the badge accepts it |
| Consistency.InitialMatrixScoresZero | ahp-mvp-pwa/src/App.jsx:29-46 | the initial matrix with uniform weights has lambdaMax = n and CI = CR = 0, and is accepted |
| Consistency.InitialMatrixPipeline | ahp-mvp-pwa/src/App.jsx:29-46 | for any order, evaluating the initial matrix with its derived weights gives CR = 0 and acceptance |
| Consistency.ZeroWeightsAccepted | ahp-mvp-pwa/src/App.jsx:38-46 | from order 3, zero or missing weights give lambdaMax = 0, (n−1)·CI = −n and a negative CR, so the badge accepts whatever the judgments |
| MatrixEditor.CopyRow | ahp-mvp-pwa/src/App.jsx:27 | `row.slice()` is a fresh array holding the same numbers |
| MatrixEditor.CloneMatrix | ahp-mvp-pwa/src/App.jsx:27 | `cloneMatrix` gives a fresh outer array of fresh, pairwise distinct rows holding the same numbers |
| MatrixEditor.HandleChange | ahp-mvp-pwa/src/App.jsx:105 | the new matrix is fresh, its numbers are `SetJudgment` of the old numbers, and the given matrix and its rows are unchanged |
| DataModel.UidCounter.constructor | ahp-mvp-pwa/src/App.jsx:49 | the counter starts at 0 |
| DataModel.UidCounter.Uid | ahp-mvp-pwa/src/App.jsx:49 | the id carries the clock reading and the current serial, and the counter moves on by one, so no serial repeats |
| DataModel.Node.constructor | ahp-mvp-pwa/src/App.jsx:52 | a node with the given id and name and no children |
| DataModel.MakeNode | ahp-mvp-pwa/src/App.jsx:52 | `makeNode(name)` returns a fresh childless node named `name` under the next id |
| DataModel.DefaultAlternatives | ahp-mvp-pwa/src/App.jsx:53 | the default alternatives A, B and C; `CreateDefaultState` states that the state starts with them |
| DataModel.CreateDefaultTree | ahp-mvp-pwa/src/App.jsx:54-59 | root "Objetivo" with children Costo, Calidad and Tiempo in order, consecutive serials, and a registry of exactly these four nodes |
| DataModel.CreateDefaultState | ahp-mvp-pwa/src/App.jsx:60-66 | the default tree, with a fresh root and fresh criteria; alternatives A, B and C; an all-ones 3×3 matrix on the root and one on each criterion; no sensitivity overrides; every matrix sized to what it compares and reciprocal |

## Left out

- The React components, JSX rendering, `useState`/`setMatrix` plumbing, charts and `toFixed` formatting are left out. They display values and compute nothing the model needs.
- Floating-point rounding and `NaN` are left out. The model computes over exact reals. JavaScript also treats `NaN` as falsy in the `||` fallbacks, and the model does not capture this.
- Priorities.WeightsFromMatrix: `Math.pow(p, 1/n)` is the parameter `root`, constrained only by `RootLaws`. The results of numeric root-finding are not modelled.
- DataModel.UidCounter.Uid: the id is the pair (clock reading, serial), not the string `n_<base-36 timestamp>_<serial>`. The clock `Date.now()` is a parameter.
- DataModel.CreateDefaultTree: one clock reading is used for all four nodes, whereas the source reads the clock once per `uid()` call. Serials alone already keep the ids distinct.
- The counter `__uid` is a module-level variable in the source; the model passes it as an explicit `UidCounter` object.
- Synthesis of global priorities, sensitivity analysis, reparenting of nodes, and import or export of snapshots are outside this model's core.
- Only the `i < j` cells are editable through the selector. Which cell the UI offers is not modelled; `SaatyEditKeepsInvariant` covers any off-diagonal cell.
