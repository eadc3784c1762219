/** The linear kernel `linear_kernel(X1, X2) = X1 @ X2` (implementation.py:9-24):
    the product of an m×n and an n×p matrix. */
module Kernels {
  import opened Results
  import opened LinearAlgebra

  /** Row i of A·B is the combination Σ_k A[i][k]·B[k] of the rows of B. */
  function MatMul(A: Matrix, B: Matrix, p: nat): (r: Matrix)
    requires IsMatrix(A, |A|, |B|) && IsMatrix(B, |B|, p)
    ensures IsMatrix(r, |A|, p)
  {
    seq(|A|, i requires 0 <= i < |A| => Combine(A[i], B, p))
  }

  /** `X1 @ X2` for an A with n columns and a B with p columns. A list of rows
      cannot carry the column count of a matrix with no rows, so both counts
      are given. numpy refuses operands whose inner dimensions disagree; that
      is `ShapeMismatch` here. */
  function LinearKernel(A: Matrix, B: Matrix, n: nat, p: nat): (r: Result<Matrix>)
    ensures r.Ok? <==> IsMatrix(A, |A|, n) && |B| == n && IsMatrix(B, n, p)
    ensures r.Err? ==> r.error == ShapeMismatch
    ensures r.Ok? ==> IsMatrix(r.value, |A|, p)
  {
    if IsMatrix(A, |A|, n) && |B| == n && IsMatrix(B, n, p) then Ok(MatMul(A, B, p))
    else Err(ShapeMismatch)
  }

  /** Entry (i, j) of the linear kernel is Σ_k A[i][k]·B[k][j], the dot
      product of row i of A with column j of B. */
  lemma LinearKernelEntries(A: Matrix, B: Matrix, n: nat, p: nat, i: nat, j: nat)
    requires LinearKernel(A, B, n, p).Ok?
    requires i < |A| && j < p
    ensures LinearKernel(A, B, n, p).value[i][j] == Dot(A[i], Column(B, j))
  {
    CombineAt(A[i], B, p, j);
  }

  /** The product of a matrix with its own transpose holds the pairwise dot
      products of its rows: the Gram matrix `kernel(X, X.T)` of the linear kernel. */
  lemma GramEntries(X: Matrix, d: nat, i: nat, j: nat)
    requires IsMatrix(X, |X|, d) && i < |X| && j < |X|
    ensures LinearKernel(X, Transpose(X, d), d, |X|).Ok?
    ensures LinearKernel(X, Transpose(X, d), d, |X|).value[i][j] == Dot(X[i], X[j])
  {
    var T := Transpose(X, d);
    CombineAt(X[i], T, |X|, j);
    assert Column(T, j) == X[j];
  }

  /** The worked product [[1,2],[3,4]]·[[5,6],[7,8]] = [[19,22],[43,50]]. */
  lemma LinearKernelExample()
    ensures LinearKernel([[1.0, 2.0], [3.0, 4.0]], [[5.0, 6.0], [7.0, 8.0]], 2, 2)
         == Ok([[19.0, 22.0], [43.0, 50.0]])
  {
    var A := [[1.0, 2.0], [3.0, 4.0]];
    var B := [[5.0, 6.0], [7.0, 8.0]];
    var C := MatMul(A, B, 2);
    forall i, j | 0 <= i < 2 && 0 <= j < 2
      ensures C[i][j] == A[i][0] * B[0][j] + A[i][1] * B[1][j]
    {
      LinearKernelEntries(A, B, 2, 2, i, j);
      DotPair(A[i], Column(B, j));
    }
    assert C[0] == [19.0, 22.0];
    assert C[1] == [43.0, 50.0];
    assert IsMatrix(A, |A|, |B|) && IsMatrix(B, |B|, 2);
    assert C == [[19.0, 22.0], [43.0, 50.0]];
  }

  lemma DotPair(u: Vector, v: Vector)
    requires |u| == |v| == 2
    ensures Dot(u, v) == u[0] * v[0] + u[1] * v[1]
  {
    DotCons(u, v);
    DotCons(u[1..], v[1..]);
    SumOfZeros(Hadamard(u[1..][1..], v[1..][1..]));
  }
}
