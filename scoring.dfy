/** `SVM.score` (implementation.py:234): `np.mean(self.predict(X) == y)`, the
    fraction of samples whose predicted label equals the true one. */
module Scoring {
  import opened LinearAlgebra
  import opened Recovery

  /** `p == y` as numbers: 1 where the labels agree, 0 where they differ. */
  function Agreement(p: Vector, y: Vector): Vector
    requires |p| == |y|
  {
    seq(|p|, i requires 0 <= i < |p| => if p[i] == y[i] then 1.0 else 0.0)
  }

  /** The number of positions where the two label vectors agree. */
  function MatchCount(p: Vector, y: Vector): (c: nat)
    requires |p| == |y|
    ensures c <= |p|
  {
    if |p| == 0 then 0
    else (if p[0] == y[0] then 1 else 0) + MatchCount(p[1..], y[1..])
  }

  lemma {:induction false} AgreementSumIsCount(p: Vector, y: Vector)
    requires |p| == |y|
    ensures Sum(Agreement(p, y)) == MatchCount(p, y) as real
  {
    if |p| > 0 {
      assert Agreement(p, y)[1..] == Agreement(p[1..], y[1..]);
      AgreementSumIsCount(p[1..], y[1..]);
    }
  }

  /** All positions agree exactly when the count reaches the length; none
      agrees exactly when it is zero. */
  lemma {:induction false} MatchCountExtremes(p: Vector, y: Vector)
    requires |p| == |y|
    ensures MatchCount(p, y) == |p| <==> forall i :: 0 <= i < |p| ==> p[i] == y[i]
    ensures MatchCount(p, y) == 0 <==> forall i :: 0 <= i < |p| ==> p[i] != y[i]
  {
    if |p| > 0 {
      MatchCountExtremes(p[1..], y[1..]);
      assert forall i :: 1 <= i < |p| ==> p[i] == p[1..][i - 1] && y[i] == y[1..][i - 1];
    }
  }

  /** The accuracy: (number of i with p[i] = y[i]) / n, a value in [0, 1] that is
      1 exactly when every label matches and 0 exactly when none does. numpy
      gives NaN for n = 0, which the caller reports instead. */
  function Accuracy(p: Vector, y: Vector): (r: real)
    requires |p| == |y| && |p| > 0
    ensures r == (MatchCount(p, y) as real) / (|p| as real)
    ensures 0.0 <= r <= 1.0
    ensures r == 1.0 <==> forall i :: 0 <= i < |p| ==> p[i] == y[i]
    ensures r == 0.0 <==> forall i :: 0 <= i < |p| ==> p[i] != y[i]
  {
    AgreementSumIsCount(p, y);
    MatchCountExtremes(p, y);
    CountFraction(MatchCount(p, y), |p|);
    Mean(Agreement(p, y))
  }

  lemma CountFraction(c: nat, n: nat)
    requires 0 < n && c <= n
    ensures 0.0 <= (c as real) / (n as real) <= 1.0
    ensures (c as real) / (n as real) == 1.0 <==> c == n
    ensures (c as real) / (n as real) == 0.0 <==> c == 0
  {
  }
}
