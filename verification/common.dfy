/** Values shared by every part of the engine model: nullable references,
    the exceptions the engine throws, and byte strings. */
module Common {

  /** A Java reference that may be `null`. */
  datatype Option<+T> = None | Some(value: T)

  /** The exception a failing call throws to its caller. */
  datatype Failure =
    | IllegalState                    // java.lang.IllegalStateException
    | IllegalArgument                 // java.lang.IllegalArgumentException
    | ExecutionFailed(cause: Failure) // RuntimeException("Execution failed", cause)

  /** What a call returned, or the exception it threw. */
  datatype Result<+T> = Ok(value: T) | Err(failure: Failure)

  /** A Java `byte[]`. */
  type Bytes = seq<bv8>
}
