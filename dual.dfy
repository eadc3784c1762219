/** The dual Lagrangian `objective_function` (implementation.py:50-73):
    Σ_i a_i − ½ Σ_i Σ_j (a_i y_i)(a_j y_j) K[i][j], over a kernel matrix K. */
module Dual {
  import opened Results
  import opened LinearAlgebra
  import opened Kernels

  /** `u @ v.T` for column vectors u, v: entry (i, j) is u[i]·v[j]. */
  function Outer(u: Vector, v: Vector): (M: Matrix)
    ensures IsMatrix(M, |u|, |v|)
  {
    seq(|u|, i requires 0 <= i < |u| => Scale(u[i], v))
  }

  /** Elementwise product of two matrices of one shape. */
  function HadamardM(M: Matrix, K: Matrix, rows: nat, cols: nat): (H: Matrix)
    requires IsMatrix(M, rows, cols) && IsMatrix(K, rows, cols)
    ensures IsMatrix(H, rows, cols)
  {
    seq(rows, i requires 0 <= i < rows => Hadamard(M[i], K[i]))
  }

  /** `np.sum` of a matrix: the sum of its row sums. */
  function SumAll(M: Matrix): real
  {
    Sum(seq(|M|, i requires 0 <= i < |M| => Sum(M[i])))
  }

  /** `objective_function` with the kernel matrix K = kernel(X, X.T) already
      formed: term1 = sum(a), term2 = sum((a*y) @ (a*y).T * K). Summing the
      elementwise product of the outer product with K gives the double sum
      Σ_i v_i · (Σ_j K[i][j] v_j), where v = a ⊙ y. */
  function Objective(K: Matrix, y: Vector, a: Vector): (r: real)
    requires |a| == |y| && IsMatrix(K, |a|, |a|)
    ensures r == Sum(a) - 0.5 * Dot(Hadamard(a, y), MatVec(K, Hadamard(a, y)))
  {
    var v := Hadamard(a, y);
    SumAllOuter(v, K);
    Sum(a) - 0.5 * SumAll(HadamardM(Outer(v, v), K, |a|, |a|))
  }

  /** `objective_function(X, y, a, linear_kernel)`: K is the linear kernel of X
      against X.T. X has d features; numpy's shape errors are `ShapeMismatch`. */
  function DualObjective(X: Matrix, y: Vector, a: Vector, d: nat): (r: Result<real>)
    ensures r.Ok? <==> IsMatrix(X, |X|, d) && |y| == |X| && |a| == |X|
    ensures r.Err? ==> r.error == ShapeMismatch
  {
    if IsMatrix(X, |X|, d) && |y| == |X| && |a| == |X| then
      var K := LinearKernel(X, Transpose(X, d), d, |X|);
      Ok(Objective(K.value, y, a))
    else
      Err(ShapeMismatch)
  }

  lemma SumAllOuter(v: Vector, K: Matrix)
    requires IsMatrix(K, |v|, |v|)
    ensures SumAll(HadamardM(Outer(v, v), K, |v|, |v|)) == Dot(v, MatVec(K, v))
  {
    var n := |v|;
    var H := HadamardM(Outer(v, v), K, n, n);
    var rowSums := seq(n, i requires 0 <= i < n => Sum(H[i]));
    forall i | 0 <= i < n ensures rowSums[i] == Hadamard(v, MatVec(K, v))[i] {
      RowOfOuter(v, K, i);
    }
    assert rowSums == Hadamard(v, MatVec(K, v));
  }

  lemma RowOfOuter(v: Vector, K: Matrix, i: nat)
    requires IsMatrix(K, |v|, |v|) && i < |v|
    ensures Sum(HadamardM(Outer(v, v), K, |v|, |v|)[i]) == v[i] * Dot(K[i], v)
  {
    assert HadamardM(Outer(v, v), K, |v|, |v|)[i] == Hadamard(Scale(v[i], v), K[i]);
    DotScaleLeft(v[i], v, K[i]);
    DotSymmetric(v, K[i]);
  }

  /** At the optimiser's starting point a = 0 the objective is 0. */
  lemma ObjectiveAtZero(K: Matrix, y: Vector, a: Vector)
    requires |a| == |y| && IsMatrix(K, |a|, |a|)
    requires forall i :: 0 <= i < |a| ==> a[i] == 0.0
    ensures Objective(K, y, a) == 0.0
  {
    var v := Hadamard(a, y);
    SumOfZeros(a);
    SumOfZeros(Hadamard(v, MatVec(K, v)));
  }
}
