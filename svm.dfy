/** The `SVM` class (implementation.py:76-236). Construction stores the kernel,
    C and max_iter and leaves a, w and b unset; `fit` overwrites a, w and b;
    `predict` and `score` read them. The optimiser that `fit` calls is not part
    of this model: its result, the multiplier vector, is a parameter of Fit. */
module Classifier {
  import opened Results
  import opened LinearAlgebra
  import opened Recovery
  import opened Thresholds
  import opened Scoring

  /** The kernel choice: `linear_kernel`, or `nonlinear_kernel` with its bandwidth. */
  datatype Kernel = Linear | Gaussian(sigma: real)

  datatype Outcome = Pass | Fail(error: SvmError)

  /** `np.dot(X, w) + b`: the decision value of every sample. */
  function Decision(X: Matrix, w: Vector, b: real): (r: Vector)
    requires IsMatrix(X, |X|, |w|)
    ensures |r| == |X|
  {
    seq(|X|, i requires 0 <= i < |X| => Dot(X[i], w) + b)
  }

  class SVM {
    const kernel: Kernel
    const C: real
    const maxIter: real
    var a: Option<Vector>
    var w: Option<Vector>
    var b: Option<real>

    /** `SVM(kernel=nonlinear_kernel, C=1.0, max_iter=1e3)`. */
    constructor (kernel: Kernel := Gaussian(0.5), C: real := 1.0, maxIter: real := 1000.0)
      ensures this.kernel == kernel && this.C == C && this.maxIter == maxIter
      ensures a == None && w == None && b == None
    {
      this.kernel := kernel;
      this.C := C;
      this.maxIter := maxIter;
      a := None;
      w := None;
      b := None;
    }

    /** predict and score need both w and b. */
    predicate Fitted()
      reads this
    {
      w.Some? && b.Some?
    }

    /** `fit(X, y)` once the optimiser has returned the multipliers `alpha`:
        a := alpha, w := Σ_i a_i y_i x_i, b := mean of y_i − x_i·w over the
        support vectors. X has d features. With no support vector the bias is
        undefined: b is cleared and DegenerateFit reported. */
    method Fit(X: Matrix, y: Vector, d: nat, alpha: Vector) returns (r: Outcome)
      modifies this
      ensures !(IsMatrix(X, |X|, d) && |y| == |X| && |alpha| == |X|) ==>
        r == Fail(ShapeMismatch) && unchanged(this)
      ensures IsMatrix(X, |X|, d) && |y| == |X| && |alpha| == |X| ==>
        && a == Some(alpha)
        && w == Some(Weights(alpha, y, X, d))
        && (Bias(alpha, y, X, Weights(alpha, y, X, d)).Ok? ==>
              b == Some(Bias(alpha, y, X, Weights(alpha, y, X, d)).value) && r == Pass)
        && (Bias(alpha, y, X, Weights(alpha, y, X, d)).Err? ==>
              b == None && r == Fail(DegenerateFit))
    {
      if !(IsMatrix(X, |X|, d) && |y| == |X| && |alpha| == |X|) {
        return Fail(ShapeMismatch);
      }
      a := Some(alpha);
      var weights := Weights(alpha, y, X, d);
      w := Some(weights);
      var bias := Bias(alpha, y, X, weights);
      if bias.Ok? {
        b := Some(bias.value);
        r := Pass;
      } else {
        b := None;
        r := Fail(DegenerateFit);
      }
    }

    /** `predict(X)`: the decision values np.dot(X, w) + b, thresholded in place.
        X is an array of |X| rows and d columns; d is passed because a matrix
        with no rows cannot carry it, and numpy checks it even then. */
    method Predict(X: Matrix, d: nat) returns (r: Result<Vector>)
      ensures !Fitted() ==> r == Err(NotFitted)
      ensures Fitted() && !(IsMatrix(X, |X|, d) && d == |w.value|) ==> r == Err(ShapeMismatch)
      ensures Fitted() && IsMatrix(X, |X|, d) && d == |w.value| ==>
        r.Ok? && r.value == Signs(Decision(X, w.value, b.value))
    {
      if !Fitted() {
        return Err(NotFitted);
      }
      var weights, bias := w.value, b.value;
      if !(IsMatrix(X, |X|, d) && d == |weights|) {
        return Err(ShapeMismatch);
      }
      var decision := Decision(X, weights, bias);
      var yPred := new real[|X|](i requires 0 <= i < |X| => decision[i]);
      Threshold(yPred);
      r := Ok(yPred[..]);
    }

    /** `score(X, y)`: the accuracy of predict(X) against y. */
    method Score(X: Matrix, d: nat, y: Vector) returns (r: Result<real>)
      ensures !Fitted() ==> r == Err(NotFitted)
      ensures Fitted() && !(IsMatrix(X, |X|, d) && d == |w.value| && |y| == |X|) ==> r == Err(ShapeMismatch)
      ensures Fitted() && IsMatrix(X, |X|, d) && d == |w.value| && |y| == |X| && |X| == 0 ==> r == Err(EmptyInput)
      ensures Fitted() && IsMatrix(X, |X|, d) && d == |w.value| && |y| == |X| && |X| > 0 ==>
        r.Ok? && r.value == Accuracy(Signs(Decision(X, w.value, b.value)), y)
    {
      var predicted := Predict(X, d);
      if predicted.Err? {
        return Err(predicted.error);
      }
      if |predicted.value| != |y| {
        return Err(ShapeMismatch);
      }
      if |y| == 0 {
        return Err(EmptyInput);
      }
      r := Ok(Accuracy(predicted.value, y));
    }
  }
}
