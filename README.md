# Dual-form SVM classifier, modelled in Dafny

This project models the exact core of a small binary Support Vector Machine that
is trained through its dual (Lagrangian) formulation. Numbers are Dafny `real`s,
vectors are `seq<real>` and matrices are `seq<seq<real>>`. Where a list of rows
cannot carry a column count (a matrix with no rows), that count is passed
explicitly: `LinearKernel` takes the column counts of both operands, and `Fit`,
`Predict` and `Score` take the feature count d beside X.

- `LinearAlgebra` holds the numpy building blocks: `np.sum`, the elementwise
  product, `np.dot`, `.T`, and linear combinations of rows. It also holds the
  linearity facts the other proofs use.
- `Kernels` is `linear_kernel`, the matrix product `X1 @ X2`. A shape mismatch
  is an explicit `ShapeMismatch` error. The module proves the entry formula, the
  Gram-matrix form of `kernel(X, X.T)` and the worked 2×2 example.
- `Dual` is `objective_function` over a kernel matrix K, plus the linear-kernel
  objective `DualObjective` as it is called with `kernel(X, X.T)`.
- `Constraints` holds the three residuals given to the optimiser and the
  feasibility predicate they define.
- `Recovery` covers the end of `fit`. It recovers the weight vector w and the
  bias b from the multipliers, and proves that with the linear kernel the dual
  objective equals Σa − ½‖w‖².
- `Thresholds` is the in-place three-way threshold at the end of `predict`. It
  is an `array` method with one loop per masked assignment.
- `Scoring` is the accuracy computed by `score`.
- `Classifier` is the `SVM` class. Its fields `kernel`, `C`, `max_iter`, `a`,
  `w` and `b` are fields of the Dafny class. `Fit` takes the optimiser's result,
  the multiplier vector, as a parameter.

Modelling choices at points where an SVM could reasonably differ; the model follows the code:
- An exact-zero decision value stays 0. No tie-break to +1 is applied.
- The support set is `a > 0` with no tolerance.
- The constructor does not validate C.
- `fit` recovers w with the linear formula whatever kernel is configured.

## Model

| member | source | states |
|---|---|---|
| Kernels.LinearKernel | implementation.py:9-24 | the product exists exactly when A is m×n and B is n×p (a zero-row A included); otherwise the result is ShapeMismatch; the product is m×p |
| Kernels.LinearKernelEntries | implementation.py:12-24 | entry (i, j) of A·B is Σ_k A[i][k]·B[k][j], the dot product of row i of A with column j of B |
| Kernels.LinearKernelExample | implementation.py:12-24 | [[1,2],[3,4]]·[[5,6],[7,8]] = [[19,22],[43,50]] |
| Kernels.GramEntries | implementation.py:72 | kernel(X, X.T) with the linear kernel is defined and its entry (i, j) is x_i·x_j |
| Dual.DualObjective | implementation.py:50-73 | the objective is defined exactly when X, y and a agree on the sample count; otherwise the result is ShapeMismatch |
| Dual.Objective | implementation.py:65-73 | sum(a) − ½·sum((a⊙y)(a⊙y)ᵀ ⊙ K) equals Σ_i a_i − ½ Σ_i (a_i y_i) Σ_j K[i][j] (a_j y_j) |
| Dual.ObjectiveAtZero | implementation.py:65-73 | the objective is 0 when every a_i is 0, the optimiser's starting point |
| Constraints.Feasible | implementation.py:161-163 | the residuals accept a exactly when 0 ≤ a_i ≤ C for all i and Σ_i a_i y_i = 0 |
| Constraints.InitialGuessFeasible | implementation.py:161-170 | the zero initial guess is feasible exactly when C ≥ 0 or there are no samples |
| Constraints.OneClassForcesZero | implementation.py:161-163 | when every label is +1, or every label is −1, the only feasible multiplier vector is zero |
| Recovery.Weights | implementation.py:179 | w has exactly one entry per feature |
| Recovery.WeightsAreCombination | implementation.py:179 | w = np.sum(a*y*X.T, axis=1) is the combination Σ_i a_i y_i x_i, so w[k] = Σ_i a_i y_i X[i][k] and w has one entry per feature |
| Recovery.ScoresAreGramRows | implementation.py:179 | x_i·w equals Σ_j a_j y_j K[i][j] for the linear kernel K = X·Xᵀ |
| Recovery.LinearObjectiveIsNormForm | implementation.py:65-73 | with the linear kernel the dual objective equals Σ_i a_i − ½‖w‖² for the w that fit recovers, and never exceeds Σ_i a_i |
| Recovery.Select | implementation.py:185 | `s[mask]` has exactly as many entries as the mask has true positions |
| Recovery.SelectFromMask | implementation.py:185 | every entry of `s[mask]` is s[i] for some i at which the mask is true |
| Recovery.SelectSum | implementation.py:185 | the sum of `s[mask]` is the sum of s with every entry outside the mask replaced by 0 |
| Recovery.Bias | implementation.py:184-185 | the bias is undefined (DegenerateFit) exactly when no a_i is positive |
| Recovery.BiasIsSupportMean | implementation.py:184-185 | when the bias is defined, some a_i is positive, and b times the number of i with a_i > 0 equals the sum of y_i − x_i·w over exactly those i |
| Recovery.BiasWithinSupportMargins | implementation.py:184-185 | b, the mean of y_i − x_i·w over {i : a_i > 0}, lies between any bounds on those values |
| Recovery.BiasOnMarginSupport | implementation.py:184-185 | if every support vector lies on its margin, with y_i(x_i·w + b0) = 1 and y_i = ±1, then b = b0 |
| Recovery.OneClassIsDegenerate | implementation.py:184-185 | with a single class and feasible multipliers, no support vector exists and the bias is undefined |
| Classifier.Decision | implementation.py:205 | np.dot(X, w) + b gives one decision value per row of X |
| Thresholds.Threshold | implementation.py:206-207 | the two in-place masked writes turn the array into NegativeToMinusOne(PositiveToOne(old)), which equals the entrywise sign |
| Thresholds.PositiveToOne | implementation.py:206 | after `y_pred[y_pred > 0] = 1` no entry exceeds 1, an entry is 1 exactly where it was positive, and non-positive entries are unchanged |
| Thresholds.NegativeToMinusOne | implementation.py:207 | after `y_pred[y_pred < 0] = -1` no entry is below −1, an entry is −1 exactly where it was negative, and non-negative entries are unchanged |
| Thresholds.MaskedWritesAreSign | implementation.py:206-207 | the writes do not interfere: a 1 written at line 206 is never caught by the `< 0` mask at line 207 |
| Thresholds.SignsAreLabels | implementation.py:205-207 | every output is −1, 0 or 1; it is 1 exactly for a positive decision value and −1 exactly for a negative one |
| Thresholds.SignsIdempotent | implementation.py:206-207 | thresholding an output again leaves it unchanged |
| Scoring.AgreementSumIsCount | implementation.py:234 | the sum of the boolean vector `predict(X) == y` is the number of matching positions |
| Scoring.MatchCountExtremes | implementation.py:234 | the match count equals n exactly when all labels match, and equals 0 exactly when none match |
| Scoring.Accuracy | implementation.py:234 | accuracy = (number of matches) / n, lies in [0, 1], is 1 exactly when all labels match and 0 exactly when none match |
| Classifier.SVM.constructor | implementation.py:109-130 | stores kernel, C and max_iter (defaults: the Gaussian kernel with σ = 0.5, 1.0, 1e3) and leaves a, w and b unset |
| Classifier.SVM.Fit | implementation.py:132-187 | a := the optimiser's multipliers; w := Weights(a, y, X); b := Bias(a, y, X, w); a shape mismatch changes nothing |
| Classifier.SVM.Predict | implementation.py:189-208 | NotFitted before fit; ShapeMismatch when X is not a matrix with as many columns as w has entries (an empty X included); otherwise Sign(x_i·w + b) for each row |
| Classifier.SVM.Score | implementation.py:213-234 | NotFitted before fit; ShapeMismatch when X's column count differs from the length of w or y's length from X's row count; EmptyInput for zero samples; otherwise the accuracy of predict(X) against y |

## Left out

- `scipy.optimize.minimize` (implementation.py:169-174) is an external numerical optimiser and is not modelled. `Fit` receives its result, the multiplier vector, as a parameter. That vector is not required to be feasible, because the optimiser may return an infeasible point. Convergence reporting is therefore not modelled either.
- `nonlinear_kernel` (implementation.py:27-47) is not modelled. It relies on floating-point `exp` and a square root. Called as `kernel(X, X.T)` at line 72 with X of shape (n, d), it computes `X - X.T` on shapes (n, d) and (d, n). numpy raises a ValueError for that unless n = d or one of n, d is 1; only in those cases does the kernel return a value, and then it is one scalar, the Gaussian exp(−‖X − Xᵀ‖_F² / (2σ²)) of the Frobenius norm of X − Xᵀ, rather than a pairwise matrix. So with the default kernel `fit` raises whenever n ≠ d and both exceed 1. The objective is instead stated over an arbitrary kernel matrix K. The `Kernel` datatype only records the configured choice.
- `max_iter` is stored by the constructor and read by nothing else, because it only feeds the optimiser.
- IEEE rounding, NaN and infinities are not modelled. Numbers are exact reals.
- numpy broadcasting between arrays of different shapes is not modelled. Every shape disagreement is `ShapeMismatch`.
- Classifier.SVM.Fit: when no multiplier is positive, the source stores NaN in `b`. The model instead clears `b` and reports DegenerateFit, so a later predict or score reports NotFitted rather than producing NaN labels.
- Classifier.SVM.Score: numpy's mean over zero samples is NaN. The model reports EmptyInput.
- `fit` does not check that labels are ±1, and neither does the model. Recovery.BiasOnMarginSupport and Recovery.OneClassIsDegenerate state their label assumptions explicitly.
- The unreachable `return None` at implementation.py:236 is not modelled.
