/** Result types shared by the other modules. */
module Wrappers {

  /** Python's None, or a value. */
  datatype Option<+T> = None | Some(value: T)

  /** A normal return, or the exception that was raised instead. */
  datatype Result<+T, +E> = Ok(value: T) | Err(error: E)

  /**
   * What one atomic step of a concurrent component does.  Disabled: the step is not
   * possible now.  Raised: it ended its call with an exception, and left this state.
   */
  datatype Outcome<S> = Disabled | Moved(state: S) | Raised(state: S)
}
