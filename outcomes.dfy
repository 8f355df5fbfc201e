/** Result values for the operations of the mapping view and its cursor. */
module Outcomes {

  /** An operation either succeeds with a value or is rejected as unsupported
      (Java's UnsupportedOperationException). */
  datatype Outcome<+R> = Success(value: R) | Unsupported

  /** A slot of a Java object array: `None` stands for `null`. */
  datatype Option<+T> = None | Some(value: T)
}
