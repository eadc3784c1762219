/** Exact finite sums over real vectors and matrices: the numpy operations the
    classifier is built from (`np.sum`, elementwise `*`, `np.dot`, `.T`),
    with the linearity facts the other modules need. */
module LinearAlgebra {

  type Vector = seq<real>
  type Matrix = seq<seq<real>>

  /** M has `rows` rows of `cols` entries each (a numpy array of that shape). */
  predicate IsMatrix(M: Matrix, rows: nat, cols: nat)
  {
    |M| == rows && forall i :: 0 <= i < rows ==> |M[i]| == cols
  }

  /** `np.sum` of a vector. */
  function Sum(s: Vector): real
  {
    if |s| == 0 then 0.0 else s[0] + Sum(s[1..])
  }

  function Zeros(n: nat): Vector
  {
    seq(n, _ => 0.0)
  }

  function Scale(c: real, v: Vector): Vector
  {
    seq(|v|, i requires 0 <= i < |v| => c * v[i])
  }

  function Add(u: Vector, v: Vector): Vector
    requires |u| == |v|
  {
    seq(|u|, i requires 0 <= i < |u| => u[i] + v[i])
  }

  /** Elementwise product, numpy's `*` on two vectors of one length. */
  function Hadamard(u: Vector, v: Vector): Vector
    requires |u| == |v|
  {
    seq(|u|, i requires 0 <= i < |u| => u[i] * v[i])
  }

  /** `np.dot` of two vectors. */
  function Dot(u: Vector, v: Vector): real
    requires |u| == |v|
  {
    Sum(Hadamard(u, v))
  }

  /** Column j of M. */
  function Column(M: Matrix, j: nat): Vector
    requires forall i :: 0 <= i < |M| ==> j < |M[i]|
  {
    seq(|M|, i requires 0 <= i < |M| => M[i][j])
  }

  /** `M.T` for an M with `cols` columns. */
  function Transpose(M: Matrix, cols: nat): (t: Matrix)
    requires IsMatrix(M, |M|, cols)
    ensures IsMatrix(t, cols, |M|)
  {
    seq(cols, k requires 0 <= k < cols => Column(M, k))
  }

  /** `np.dot(M, v)`: one dot product per row of M. */
  function MatVec(M: Matrix, v: Vector): (r: Vector)
    requires IsMatrix(M, |M|, |v|)
    ensures |r| == |M|
  {
    seq(|M|, i requires 0 <= i < |M| => Dot(M[i], v))
  }

  /** The linear combination Σ_k c[k]·rows[k] of rows that have `cols` entries each. */
  function Combine(c: Vector, rows: Matrix, cols: nat): (r: Vector)
    requires |c| == |rows| && IsMatrix(rows, |rows|, cols)
    ensures |r| == cols
  {
    if |c| == 0 then Zeros(cols)
    else Add(Scale(c[0], rows[0]), Combine(c[1..], rows[1..], cols))
  }

  // ---------------------------------------------------------------- sums

  lemma {:induction false} SumOfZeros(s: Vector)
    requires forall i :: 0 <= i < |s| ==> s[i] == 0.0
    ensures Sum(s) == 0.0
  {
    if |s| > 0 {
      SumOfZeros(s[1..]);
    }
  }

  lemma {:induction false} SumAdd(u: Vector, v: Vector)
    requires |u| == |v|
    ensures Sum(Add(u, v)) == Sum(u) + Sum(v)
  {
    if |u| > 0 {
      assert Add(u, v)[1..] == Add(u[1..], v[1..]);
      SumAdd(u[1..], v[1..]);
    }
  }

  lemma {:induction false} SumScale(c: real, v: Vector)
    ensures Sum(Scale(c, v)) == c * Sum(v)
  {
    if |v| > 0 {
      forall i | 0 <= i < |v| - 1 ensures Scale(c, v)[1..][i] == Scale(c, v[1..])[i] {
        assert v[1..][i] == v[i + 1];
      }
      assert Scale(c, v)[1..] == Scale(c, v[1..]);
      SumScale(c, v[1..]);
    }
  }

  lemma {:induction false} SumConcat(s: Vector, t: Vector)
    ensures Sum(s + t) == Sum(s) + Sum(t)
  {
    if |s| == 0 {
      assert s + t == t;
    } else {
      assert (s + t)[1..] == s[1..] + t;
      SumConcat(s[1..], t);
    }
  }

  /** A sum of non-negative terms is non-negative, and it is zero only when every term is. */
  lemma {:induction false} SumNonNegative(s: Vector)
    requires forall i :: 0 <= i < |s| ==> s[i] >= 0.0
    ensures Sum(s) >= 0.0
    ensures Sum(s) == 0.0 ==> forall i :: 0 <= i < |s| ==> s[i] == 0.0
  {
    if |s| > 0 {
      SumNonNegative(s[1..]);
      forall i | 0 <= i < |s| && Sum(s) == 0.0 ensures s[i] == 0.0 {
        if i > 0 {
          assert s[i] == s[1..][i - 1];
        }
      }
    }
  }

  /** Lower and upper bounds on every term bound the sum by |s| times them. */
  lemma {:induction false} SumBounds(s: Vector, lo: real, hi: real)
    requires forall i :: 0 <= i < |s| ==> lo <= s[i] <= hi
    ensures (|s| as real) * lo <= Sum(s) <= (|s| as real) * hi
  {
    if |s| > 0 {
      SumBounds(s[1..], lo, hi);
    }
  }

  // ---------------------------------------------------------------- dot products

  lemma DotCons(u: Vector, v: Vector)
    requires |u| == |v| && |u| > 0
    ensures Dot(u, v) == u[0] * v[0] + Dot(u[1..], v[1..])
  {
    forall i | 0 <= i < |u| - 1 ensures Hadamard(u, v)[1..][i] == Hadamard(u[1..], v[1..])[i] {
      assert u[1..][i] == u[i + 1] && v[1..][i] == v[i + 1];
    }
    assert Hadamard(u, v)[1..] == Hadamard(u[1..], v[1..]);
  }

  lemma DotSymmetric(u: Vector, v: Vector)
    requires |u| == |v|
    ensures Dot(u, v) == Dot(v, u)
  {
    assert Hadamard(u, v) == Hadamard(v, u);
  }

  lemma DotAddLeft(p: Vector, q: Vector, u: Vector)
    requires |p| == |q| == |u|
    ensures Dot(Add(p, q), u) == Dot(p, u) + Dot(q, u)
  {
    forall i | 0 <= i < |u| ensures Hadamard(Add(p, q), u)[i] == Add(Hadamard(p, u), Hadamard(q, u))[i] {
      assert (p[i] + q[i]) * u[i] == p[i] * u[i] + q[i] * u[i];
    }
    assert Hadamard(Add(p, q), u) == Add(Hadamard(p, u), Hadamard(q, u));
    SumAdd(Hadamard(p, u), Hadamard(q, u));
  }

  lemma DotScaleLeft(c: real, p: Vector, u: Vector)
    requires |p| == |u|
    ensures Dot(Scale(c, p), u) == c * Dot(p, u)
  {
    forall i | 0 <= i < |u| ensures Hadamard(Scale(c, p), u)[i] == Scale(c, Hadamard(p, u))[i] {
      assert (c * p[i]) * u[i] == c * (p[i] * u[i]);
    }
    assert Hadamard(Scale(c, p), u) == Scale(c, Hadamard(p, u));
    SumScale(c, Hadamard(p, u));
  }

  lemma DotZerosLeft(u: Vector)
    ensures Dot(Zeros(|u|), u) == 0.0
  {
    SumOfZeros(Hadamard(Zeros(|u|), u));
  }

  /** A squared norm is never negative. */
  lemma DotSelfNonNegative(u: Vector)
    ensures Dot(u, u) >= 0.0
  {
    forall i | 0 <= i < |u| ensures Hadamard(u, u)[i] >= 0.0 {
      SquareNonNegative(u[i]);
    }
    SumNonNegative(Hadamard(u, u));
  }

  lemma SquareNonNegative(x: real)
    ensures x * x >= 0.0
  {
  }

  // ---------------------------------------------------------------- linear combinations

  /** Entry k of Σ_i c[i]·rows[i] is Σ_i c[i]·rows[i][k]. */
  lemma {:induction false} CombineAt(c: Vector, rows: Matrix, cols: nat, k: nat)
    requires |c| == |rows| && IsMatrix(rows, |rows|, cols) && k < cols
    ensures Combine(c, rows, cols)[k] == Dot(c, Column(rows, k))
  {
    if |c| == 0 {
      SumOfZeros(Hadamard(c, Column(rows, k)));
    } else {
      CombineAt(c[1..], rows[1..], cols, k);
      assert Column(rows, k)[1..] == Column(rows[1..], k);
      DotCons(c, Column(rows, k));
    }
  }

  /** Dotting a linear combination of rows with u combines the rows' dot products with u. */
  lemma {:induction false} DotCombineLeft(c: Vector, rows: Matrix, cols: nat, u: Vector)
    requires |c| == |rows| && IsMatrix(rows, |rows|, cols) && |u| == cols
    ensures Dot(Combine(c, rows, cols), u) == Dot(c, MatVec(rows, u))
  {
    if |c| == 0 {
      DotZerosLeft(u);
      SumOfZeros(Hadamard(c, MatVec(rows, u)));
    } else {
      var tail := Combine(c[1..], rows[1..], cols);
      DotAddLeft(Scale(c[0], rows[0]), tail, u);
      DotScaleLeft(c[0], rows[0], u);
      DotCombineLeft(c[1..], rows[1..], cols, u);
      assert MatVec(rows, u)[1..] == MatVec(rows[1..], u);
      DotCons(c, MatVec(rows, u));
    }
  }
}
