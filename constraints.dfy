/** The constraint list `fit` hands to the optimiser (implementation.py:161-163):
    two 'ineq' residuals, feasible where every entry is non-negative, and one
    'eq' residual, feasible where it is zero. */
module Constraints {
  import opened LinearAlgebra

  /** `lambda a: a`: the multipliers are non-negative. */
  function NonNegResidual(a: Vector): Vector
  {
    a
  }

  /** `lambda a: self.C - a`: no multiplier exceeds C. */
  function UpperResidual(C: real, a: Vector): Vector
  {
    seq(|a|, i requires 0 <= i < |a| => C - a[i])
  }

  /** `lambda a: np.sum(a * y)`: the multipliers balance the two classes. */
  function EqualityResidual(a: Vector, y: Vector): real
    requires |a| == |y|
  {
    Sum(Hadamard(a, y))
  }

  /** The feasible region as the optimiser reads the constraint list: the
      three residuals accept a exactly when 0 ≤ a_i ≤ C for every i and
      Σ_i a_i y_i = 0. */
  predicate Feasible(C: real, a: Vector, y: Vector)
    requires |a| == |y|
    ensures Feasible(C, a, y) <==>
      (forall i :: 0 <= i < |a| ==> 0.0 <= a[i] <= C) && Dot(a, y) == 0.0
  {
    assert NonNegResidual(a) == a;
    assert forall i :: 0 <= i < |a| ==> UpperResidual(C, a)[i] == C - a[i];
    && (forall i :: 0 <= i < |a| ==> NonNegResidual(a)[i] >= 0.0)
    && (forall i :: 0 <= i < |a| ==> UpperResidual(C, a)[i] >= 0.0)
    && EqualityResidual(a, y) == 0.0
  }

  /** The optimiser's initial guess, the zero vector, is feasible exactly when
      C is non-negative (or there are no samples). */
  lemma {:induction false} InitialGuessFeasible(C: real, y: Vector)
    ensures Feasible(C, Zeros(|y|), y) <==> (|y| == 0 || C >= 0.0)
  {
    SumOfZeros(Hadamard(Zeros(|y|), y));
    if |y| > 0 {
      assert UpperResidual(C, Zeros(|y|))[0] == C;
    }
  }

  /** With only one class present the equality constraint leaves no room: every
      feasible multiplier vector is zero, so no sample is a support vector. */
  lemma OneClassForcesZero(C: real, a: Vector, y: Vector)
    requires |a| == |y| && Feasible(C, a, y)
    requires (forall i :: 0 <= i < |y| ==> y[i] == 1.0) || (forall i :: 0 <= i < |y| ==> y[i] == -1.0)
    ensures forall i :: 0 <= i < |a| ==> a[i] == 0.0
  {
    assert NonNegResidual(a) == a;
    if forall i :: 0 <= i < |y| ==> y[i] == 1.0 {
      assert Hadamard(a, y) == a;
    } else {
      assert Hadamard(a, y) == Scale(-1.0, a);
      SumScale(-1.0, a);
    }
    SumNonNegative(a);
  }
}
