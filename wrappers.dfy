/** Option and Result, used for Java's null and for the exceptions the importer catches. */
module Wrappers {

  /** `None` stands for a Java null (an absent cell, an unset String field). */
  datatype Option<+T> = None | Some(value: T)

  /** The outcome of a conversion that may throw. */
  datatype Result<+T, +E> = Ok(value: T) | Err(error: E)
}
