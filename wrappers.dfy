/**
 * The optional value that stands for Kotlin's nullable types: the `Double?`
 * result of the estimator, and the outcome of matching a string against the
 * branches of a `when`.
 */
module Wrappers {

  /** `None` plays the part of Kotlin's `null`. */
  datatype Option<+T> = None | Some(value: T)
}
