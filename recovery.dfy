/** Recovery of the primal parameters from the multipliers in `SVM.fit`
    (implementation.py:178-185): the weight vector w = Σ_i a_i y_i x_i and the
    bias b, the mean of y_i − x_i·w over the support vectors (a_i > 0). */
module Recovery {
  import opened Results
  import opened LinearAlgebra
  import opened Kernels
  import opened Dual
  import opened Constraints

  /** `np.sum(a * y * X.T, axis=1)`: entry k sums row k of X.T weighted by a ⊙ y. */
  function Weights(a: Vector, y: Vector, X: Matrix, d: nat): (w: Vector)
    requires |a| == |y| == |X| && IsMatrix(X, |X|, d)
    ensures |w| == d
  {
    var v := Hadamard(a, y);
    var T := Transpose(X, d);
    seq(d, k requires 0 <= k < d => Sum(Hadamard(v, T[k])))
  }

  /** w is the linear combination Σ_i a_i·y_i·x_i of the training samples. */
  lemma WeightsAreCombination(a: Vector, y: Vector, X: Matrix, d: nat)
    requires |a| == |y| == |X| && IsMatrix(X, |X|, d)
    ensures Weights(a, y, X, d) == Combine(Hadamard(a, y), X, d)
  {
    var v := Hadamard(a, y);
    forall k | 0 <= k < d ensures Weights(a, y, X, d)[k] == Combine(v, X, d)[k] {
      CombineAt(v, X, d, k);
    }
  }

  /** With the linear kernel the dual objective is Σ_i a_i − ½‖w‖², where w is
      the weight vector recovered from the same multipliers; so it never
      exceeds Σ_i a_i. */
  lemma LinearObjectiveIsNormForm(X: Matrix, y: Vector, a: Vector, d: nat)
    requires IsMatrix(X, |X|, d) && |y| == |X| && |a| == |X|
    ensures DualObjective(X, y, a, d).Ok?
    ensures DualObjective(X, y, a, d).value
         == Sum(a) - 0.5 * Dot(Weights(a, y, X, d), Weights(a, y, X, d))
    ensures DualObjective(X, y, a, d).value <= Sum(a)
  {
    assert DualObjective(X, y, a, d).value == Objective(LinearKernel(X, Transpose(X, d), d, |X|).value, y, a);
    GramObjective(X, y, a, d);
    DotSelfNonNegative(Weights(a, y, X, d));
  }

  lemma GramObjective(X: Matrix, y: Vector, a: Vector, d: nat)
    requires IsMatrix(X, |X|, d) && |y| == |X| && |a| == |X|
    ensures Objective(LinearKernel(X, Transpose(X, d), d, |X|).value, y, a)
         == Sum(a) - 0.5 * Dot(Weights(a, y, X, d), Weights(a, y, X, d))
  {
    var v := Hadamard(a, y);
    var K := LinearKernel(X, Transpose(X, d), d, |X|).value;
    var w := Weights(a, y, X, d);
    ScoresAreGramRows(X, y, a, d);
    WeightsAreCombination(a, y, X, d);
    DotCombineLeft(v, X, d, w);
  }

  /** x_i·w = Σ_j a_j y_j K[i][j]: the linear kernel turns scores against w
      into rows of the Gram matrix. */
  lemma ScoresAreGramRows(X: Matrix, y: Vector, a: Vector, d: nat)
    requires IsMatrix(X, |X|, d) && |y| == |X| && |a| == |X|
    ensures MatVec(X, Weights(a, y, X, d))
         == MatVec(LinearKernel(X, Transpose(X, d), d, |X|).value, Hadamard(a, y))
  {
    var n := |X|;
    var v := Hadamard(a, y);
    var K := LinearKernel(X, Transpose(X, d), d, n).value;
    var w := Weights(a, y, X, d);
    WeightsAreCombination(a, y, X, d);
    forall i | 0 <= i < n ensures MatVec(X, w)[i] == MatVec(K, v)[i] {
      GramRow(X, d, i);
      DotSymmetric(X[i], w);
      DotCombineLeft(v, X, d, X[i]);
      DotSymmetric(v, K[i]);
    }
  }

  lemma GramRow(X: Matrix, d: nat, i: nat)
    requires IsMatrix(X, |X|, d) && i < |X|
    ensures LinearKernel(X, Transpose(X, d), d, |X|).value[i] == MatVec(X, X[i])
  {
    var K := LinearKernel(X, Transpose(X, d), d, |X|).value;
    forall j | 0 <= j < |X| ensures K[i][j] == MatVec(X, X[i])[j] {
      GramEntries(X, d, i, j);
      DotSymmetric(X[i], X[j]);
    }
  }

  /** `self.a > 0`: the support vectors. */
  function SupportMask(a: Vector): seq<bool>
  {
    seq(|a|, i requires 0 <= i < |a| => a[i] > 0.0)
  }

  /** The number of true entries of a mask. */
  function CountTrue(mask: seq<bool>): nat
  {
    if |mask| == 0 then 0 else (if mask[0] then 1 else 0) + CountTrue(mask[1..])
  }

  /** Boolean-mask indexing `s[mask]`: the entries where the mask is true, in
      order, one per true position of the mask. */
  function Select(s: Vector, mask: seq<bool>): (r: Vector)
    requires |s| == |mask|
    ensures |r| == CountTrue(mask)
  {
    if |s| == 0 then []
    else (if mask[0] then [s[0]] else []) + Select(s[1..], mask[1..])
  }

  /** Every entry of `s[mask]` is an entry of s at a position where the mask is true. */
  lemma {:induction false} SelectFromMask(s: Vector, mask: seq<bool>, j: nat)
    requires |s| == |mask| && j < |Select(s, mask)|
    ensures exists i :: 0 <= i < |s| && mask[i] && Select(s, mask)[j] == s[i]
  {
    var head := if mask[0] then [s[0]] else [];
    var tail := Select(s[1..], mask[1..]);
    assert Select(s, mask) == head + tail;
    if j < |head| {
      assert mask[0] && Select(s, mask)[j] == s[0];
    } else {
      SelectFromMask(s[1..], mask[1..], j - |head|);
      var k :| 0 <= k < |s| - 1 && mask[1..][k] && tail[j - |head|] == s[1..][k];
      assert mask[k + 1] && Select(s, mask)[j] == s[k + 1];
    }
  }

  /** `np.mean` of a non-empty vector. */
  function Mean(s: Vector): real
    requires |s| > 0
  {
    Sum(s) / (|s| as real)
  }

  /** `y - np.dot(X, w)`: each sample's label minus its score without bias. */
  function Margins(X: Matrix, y: Vector, w: Vector): Vector
    requires IsMatrix(X, |X|, |w|) && |y| == |X|
  {
    seq(|X|, i requires 0 <= i < |X| => y[i] - Dot(X[i], w))
  }

  /** `np.mean(y[sv] - np.dot(X[sv], w))` with sv = `a > 0`. numpy returns NaN
      when no multiplier is positive; that is `DegenerateFit` here. */
  function Bias(a: Vector, y: Vector, X: Matrix, w: Vector): (r: Result<real>)
    requires |a| == |y| == |X| && IsMatrix(X, |X|, |w|)
    ensures r.Err? <==> forall i :: 0 <= i < |a| ==> a[i] <= 0.0
    ensures r.Err? ==> r.error == DegenerateFit
  {
    var s := Select(Margins(X, y, w), SupportMask(a));
    SelectEmptyIff(Margins(X, y, w), SupportMask(a));
    assert forall i :: 0 <= i < |a| ==> SupportMask(a)[i] == (a[i] > 0.0);
    if |s| == 0 then Err(DegenerateFit) else Ok(Mean(s))
  }

  lemma {:induction false} SelectEmptyIff(s: Vector, mask: seq<bool>)
    requires |s| == |mask|
    ensures |Select(s, mask)| == 0 <==> forall i :: 0 <= i < |mask| ==> !mask[i]
  {
    if |s| > 0 {
      SelectEmptyIff(s[1..], mask[1..]);
      assert forall i :: 1 <= i < |mask| ==> mask[i] == mask[1..][i - 1];
    }
  }

  /** s with every entry outside the mask replaced by 0. */
  function ZeroOutside(s: Vector, mask: seq<bool>): Vector
    requires |s| == |mask|
  {
    seq(|s|, i requires 0 <= i < |s| => if mask[i] then s[i] else 0.0)
  }

  /** The sum of `s[mask]` is the sum of s over the true positions of the mask. */
  lemma {:induction false} SelectSum(s: Vector, mask: seq<bool>)
    requires |s| == |mask|
    ensures Sum(Select(s, mask)) == Sum(ZeroOutside(s, mask))
  {
    if |s| > 0 {
      SelectSum(s[1..], mask[1..]);
      assert ZeroOutside(s, mask)[1..] == ZeroOutside(s[1..], mask[1..]);
      SumConcat(if mask[0] then [s[0]] else [], Select(s[1..], mask[1..]));
    }
  }

  /** The bias is the mean of y_i − x_i·w over exactly the samples with a_i > 0:
      times the number of those samples, it is the sum of their margins. */
  lemma BiasIsSupportMean(a: Vector, y: Vector, X: Matrix, w: Vector)
    requires |a| == |y| == |X| && IsMatrix(X, |X|, |w|)
    requires Bias(a, y, X, w).Ok?
    ensures CountTrue(SupportMask(a)) > 0
    ensures Bias(a, y, X, w).value * (CountTrue(SupportMask(a)) as real)
         == Sum(seq(|a|, i requires 0 <= i < |a| => if a[i] > 0.0 then y[i] - Dot(X[i], w) else 0.0))
  {
    var m := Margins(X, y, w);
    var mask := SupportMask(a);
    SelectSum(m, mask);
    assert ZeroOutside(m, mask)
        == seq(|a|, i requires 0 <= i < |a| => if a[i] > 0.0 then y[i] - Dot(X[i], w) else 0.0);
  }

  /** Every selected entry comes from a position where the mask is true. */
  lemma {:induction false} SelectWithin(s: Vector, mask: seq<bool>, lo: real, hi: real)
    requires |s| == |mask|
    requires forall i :: 0 <= i < |s| && mask[i] ==> lo <= s[i] <= hi
    ensures forall j :: 0 <= j < |Select(s, mask)| ==> lo <= Select(s, mask)[j] <= hi
  {
    if |s| > 0 {
      assert forall i :: 0 <= i < |s| - 1 && mask[1..][i] ==> s[1..][i] == s[i + 1] && mask[i + 1];
      SelectWithin(s[1..], mask[1..], lo, hi);
    }
  }

  lemma MeanWithin(s: Vector, lo: real, hi: real)
    requires |s| > 0
    requires forall j :: 0 <= j < |s| ==> lo <= s[j] <= hi
    ensures lo <= Mean(s) <= hi
  {
    var n := |s| as real;
    SumBounds(s, lo, hi);
    assert Mean(s) * n == Sum(s);
  }

  /** The bias lies between the smallest and the largest y_i − x_i·w over the
      support vectors. */
  lemma BiasWithinSupportMargins(a: Vector, y: Vector, X: Matrix, w: Vector, lo: real, hi: real)
    requires |a| == |y| == |X| && IsMatrix(X, |X|, |w|)
    requires Bias(a, y, X, w).Ok?
    requires forall i :: 0 <= i < |a| && a[i] > 0.0 ==> lo <= y[i] - Dot(X[i], w) <= hi
    ensures lo <= Bias(a, y, X, w).value <= hi
  {
    var m := Margins(X, y, w);
    SelectWithin(m, SupportMask(a), lo, hi);
    MeanWithin(Select(m, SupportMask(a)), lo, hi);
  }

  /** When every support vector lies on its margin, y_i·(x_i·w + b0) = 1 with
      y_i ∈ {−1, +1}, the recovered bias is exactly b0. */
  lemma BiasOnMarginSupport(a: Vector, y: Vector, X: Matrix, w: Vector, b0: real)
    requires |a| == |y| == |X| && IsMatrix(X, |X|, |w|)
    requires exists i :: 0 <= i < |a| && a[i] > 0.0
    requires forall i :: 0 <= i < |a| && a[i] > 0.0 ==>
      (y[i] == 1.0 || y[i] == -1.0) && y[i] * (Dot(X[i], w) + b0) == 1.0
    ensures Bias(a, y, X, w) == Ok(b0)
  {
    forall i | 0 <= i < |a| && a[i] > 0.0 ensures y[i] - Dot(X[i], w) == b0 {
      if y[i] == -1.0 {
        assert -(Dot(X[i], w) + b0) == 1.0;
      }
    }
    BiasWithinSupportMargins(a, y, X, w, b0, b0);
  }

  /** Training data with a single class admits no support vector: every
      feasible multiplier vector is zero, so the bias is undefined. */
  lemma OneClassIsDegenerate(C: real, a: Vector, y: Vector, X: Matrix, w: Vector)
    requires |a| == |y| == |X| && IsMatrix(X, |X|, |w|)
    requires Feasible(C, a, y)
    requires (forall i :: 0 <= i < |y| ==> y[i] == 1.0) || (forall i :: 0 <= i < |y| ==> y[i] == -1.0)
    ensures Bias(a, y, X, w) == Err(DegenerateFit)
  {
    OneClassForcesZero(C, a, y);
  }
}
