/** Failure values of the classifier: numpy's shape errors, the empty support
    set that makes the bias undefined, use before `fit`, and a mean over no
    samples. */
module Results {

  datatype SvmError =
    | ShapeMismatch   // array shapes disagree
    | DegenerateFit   // no multiplier is strictly positive, so the bias is undefined
    | NotFitted       // predict/score before a successful fit
    | EmptyInput      // accuracy over zero samples

  datatype Result<T> = Ok(value: T) | Err(error: SvmError)

  datatype Option<T> = None | Some(value: T)
}
