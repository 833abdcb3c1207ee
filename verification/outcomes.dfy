/** The error kinds the detectors raise, and the result wrapper that carries them. */
module Outcomes {
  import opened Grids

  datatype Error =
    /** `ValueError("Image dimensions don't match: master ... vs slave ...")`, naming both shapes. */
    | ShapeMismatch(master: Shape, slave: Shape)
    /** `ValueError("Unsupported edge detection method: ...")`, naming the tag as given. */
    | UnsupportedMethod(name: string)
    /** numpy's refusal to take the maximum or minimum of a zero-size array. */
    | EmptyReduction

  datatype Result<+T> = Success(value: T) | Failure(error: Error) {
    predicate IsFailure() {
      Failure?
    }

    function PropagateFailure<U>(): Result<U>
      requires Failure?
    {
      Failure(error)
    }

    function Extract(): T
      requires Success?
    {
      value
    }
  }

  datatype Option<+T> = None | Some(value: T)
}
