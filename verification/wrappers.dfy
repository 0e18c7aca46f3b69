/** Absent-or-present and success-or-failure values, standing for the
    TypeScript `T | undefined` returns and zod's parse results. */
module Wrappers {

  /** `None` is JavaScript's `undefined` (or `null`, where the source stores it). */
  datatype Option<+T> = None | Some(value: T) {

    /** The carried value, or `default` when absent (the `??` operator). */
    function GetOr(default: T): T {
      match this
      case Some(v) => v
      case None => default
    }
  }

  /** The outcome of a validation: the parsed value or the errors found. */
  datatype Result<+T, +E> = Ok(value: T) | Err(error: E)
}
