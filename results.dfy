/** Java's `null` and Java's exceptions, as values. */
module Results {

  /** A reference that may be `null`: `None` stands for `null`. */
  datatype Option<+T> = None | Some(value: T)

  /** The outcome of a call that either returns a value or throws. Which
      exception is thrown is not distinguished: every caller in the
      authentication code treats them alike. */
  datatype Result<+T> = Ok(value: T) | Failure
}
