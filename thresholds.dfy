/** The three-way threshold at the end of `SVM.predict` (implementation.py:205-207):
    decision values are rewritten in place, first every positive entry to 1,
    then every negative entry to −1; an exact 0 is left as it is. */
module Thresholds {
  import opened LinearAlgebra

  /** The label predict assigns to one decision value. */
  function Sign(x: real): real
  {
    if x > 0.0 then 1.0 else if x < 0.0 then -1.0 else 0.0
  }

  function Signs(s: Vector): Vector
  {
    seq(|s|, i requires 0 <= i < |s| => Sign(s[i]))
  }

  /** `y_pred[y_pred > 0] = 1`: afterwards no entry exceeds 1, an entry is 1
      exactly where it was positive, and the other entries are untouched. */
  function PositiveToOne(s: Vector): (r: Vector)
    ensures |r| == |s|
    ensures forall i :: 0 <= i < |r| ==> r[i] <= 1.0
    ensures forall i :: 0 <= i < |r| ==> (r[i] == 1.0 <==> s[i] > 0.0)
    ensures forall i :: 0 <= i < |r| && s[i] <= 0.0 ==> r[i] == s[i]
  {
    seq(|s|, i requires 0 <= i < |s| => if s[i] > 0.0 then 1.0 else s[i])
  }

  /** `y_pred[y_pred < 0] = -1`: afterwards no entry is below −1, an entry is
      −1 exactly where it was negative, and the other entries are untouched. */
  function NegativeToMinusOne(s: Vector): (r: Vector)
    ensures |r| == |s|
    ensures forall i :: 0 <= i < |r| ==> r[i] >= -1.0
    ensures forall i :: 0 <= i < |r| ==> (r[i] == -1.0 <==> s[i] < 0.0)
    ensures forall i :: 0 <= i < |r| && s[i] >= 0.0 ==> r[i] == s[i]
  {
    seq(|s|, i requires 0 <= i < |s| => if s[i] < 0.0 then -1.0 else s[i])
  }

  /** The two masked writes do not interfere: a 1 written by the first is not
      caught by the second's `< 0` mask, so together they apply Sign entrywise. */
  lemma MaskedWritesAreSign(s: Vector)
    ensures NegativeToMinusOne(PositiveToOne(s)) == Signs(s)
  {
  }

  /** Every label is −1, 0 or 1, and it carries the sign of the decision value. */
  lemma SignsAreLabels(s: Vector)
    ensures |Signs(s)| == |s|
    ensures forall i :: 0 <= i < |s| ==> Signs(s)[i] == -1.0 || Signs(s)[i] == 0.0 || Signs(s)[i] == 1.0
    ensures forall i :: 0 <= i < |s| ==> (Signs(s)[i] == 1.0 <==> s[i] > 0.0)
    ensures forall i :: 0 <= i < |s| ==> (Signs(s)[i] == -1.0 <==> s[i] < 0.0)
  {
  }

  /** Thresholding labels again changes nothing. */
  lemma SignsIdempotent(s: Vector)
    ensures Signs(Signs(s)) == Signs(s)
  {
  }

  /** The two masked assignments of predict, each a pass over the array. */
  method Threshold(yPred: array<real>)
    modifies yPred
    ensures yPred[..] == NegativeToMinusOne(PositiveToOne(old(yPred[..])))
    ensures yPred[..] == Signs(old(yPred[..]))
  {
    ghost var original := yPred[..];
    var i := 0;
    while i < yPred.Length
      invariant 0 <= i <= yPred.Length
      invariant forall k :: 0 <= k < i ==> yPred[k] == PositiveToOne(original)[k]
      invariant forall k :: i <= k < yPred.Length ==> yPred[k] == original[k]
    {
      if yPred[i] > 0.0 {
        yPred[i] := 1.0;
      }
      i := i + 1;
    }
    ghost var positivesDone := yPred[..];
    assert positivesDone == PositiveToOne(original);
    i := 0;
    while i < yPred.Length
      invariant 0 <= i <= yPred.Length
      invariant forall k :: 0 <= k < i ==> yPred[k] == NegativeToMinusOne(positivesDone)[k]
      invariant forall k :: i <= k < yPred.Length ==> yPred[k] == positivesDone[k]
    {
      if yPred[i] < 0.0 {
        yPred[i] := -1.0;
      }
      i := i + 1;
    }
    assert yPred[..] == NegativeToMinusOne(positivesDone);
    MaskedWritesAreSign(original);
  }
}
