/** Failure-carrying return types shared by the modules of the model.
    A PHP call that throws is modelled as a function that returns `Err`. */
module Results {

  /** A value that may be absent (PHP `null`). */
  datatype Option<+T> = None | Some(value: T) {

    /** The carried value, or `default` when there is none. */
    function GetOr(default: T): T {
      match this
      case Some(v) => v
      case None => default
    }
  }

  /** The outcome of a call that either returns a value or throws an error. */
  datatype Result<+T, +E> = Ok(value: T) | Err(error: E)
}
