/** Small wrapper types shared by the model. */
module Outcomes {

  /** Python's `Optional[...]`: a value or `None`. */
  datatype Option<+T> = None | Some(value: T)

  /** The result of a Python call that may raise: the value it returned, or the
      text `str(e)` of the exception it raised. */
  datatype Outcome<+T> = Returned(value: T) | Raised(error: string)
}
