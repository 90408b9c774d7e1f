/** Optional values and the outcome of evaluating JavaScript that may throw. */
module Wrappers {

  /** A value that may be absent: `null`/`undefined` in the source. */
  datatype Option<+T> = None | Some(value: T)

  /** The outcome of evaluating a JavaScript expression: it returns a value or
      throws (the thrown value is not modelled). `Unmodelled` marks an
      evaluation that depends on regular-expression syntax outside the
      fragment this model covers, about which the model claims nothing. */
  datatype Try<+T> = Returned(value: T) | Threw | Unmodelled
}
