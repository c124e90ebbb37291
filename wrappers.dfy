/** Failure-carrying results, used wherever the source returns an error, a nil
    pointer, `undefined`, or panics. */
module Wrappers {

  datatype Option<+T> = None | Some(value: T)

  /** JavaScript's `value ?? fallback`. */
  function UnwrapOr<T>(o: Option<T>, fallback: T): T {
    if o.Some? then o.value else fallback
  }

  datatype Result<+T, +E> = Ok(value: T) | Err(error: E)
}
