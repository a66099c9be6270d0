/** Wrappers shared by the repositories and services. */
module Results {

  /** A value that may be absent (Python's `Optional`). */
  datatype Option<T> = None | Some(value: T)

  /** The two kinds of refusal a service reports; HTTP status codes and messages are not kept. */
  datatype Failure = NotFound | ValidationFailure

  /** What a service returns: its value, or the refusal it raises. */
  datatype Result<T> = Ok(value: T) | Err(failure: Failure)

  /**
   * What a repository method returns when it converts an identifier text
   * outside any exception handler: its value, or the `InvalidId` error the
   * conversion raises to the caller.
   */
  datatype Outcome<T> = Done(value: T) | InvalidId
}
