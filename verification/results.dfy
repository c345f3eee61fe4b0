/** Absent values, failures and the error taxonomy shared by the whole model.

    `Option` plays the role of Guava's `Optional` (and of a Java reference
    that may be `null`); `Result` carries either a value or the exception the
    Java code would throw. `Result` is failure-compatible, so `:-` propagates
    a failure the way an uncaught exception propagates in the source.
 */
module Results {

  datatype Option<+T> = None | Some(value: T)

  /** The exceptions the core can raise, grouped by cause. */
  datatype Error =
      /** `IllegalArgumentException` from a `checkArgument` precondition. */
    | IllegalArgument(reason: string)
      /** `NullPointerException` from a `checkNotNull` on a missing value. */
    | NullValue(message: string)
      /** `NumberFormatException` while reading a number. */
    | NumberFormat(text: string)
      /** `StringIndexOutOfBoundsException` from `substring` at a bad index. */
    | IndexOutOfRange(index: int)
      /** `Optional.get()` on the absent result of a name lookup. */
    | UnknownName(name: string)
      /** `IOException` carrying an error message sent by the remote service. */
    | RemoteError(message: string)
      /** `MalformedURLException` from `new URL(text)`. */
    | MalformedUrl(url: string)
      /** `FileNotFoundException`: the service has nothing at the address. */
    | NotFound
      /** The token stream ended before the value being read was complete. */
    | Truncated
      /** A token appeared where the parser needs a field name. */
    | Malformed

  datatype Result<+T> = Success(value: T) | Failure(error: Error) {

    predicate IsFailure() {
      Failure?
    }

    function PropagateFailure<U>(): Result<U>
      requires Failure?
    {
      Failure(error)
    }

    function Extract(): T
      requires Success?
    {
      value
    }
  }
}
