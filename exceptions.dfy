/** The exceptions the library raises, and the wrappers that carry them.
    A C# method that returns nothing but may throw is modelled as returning an
    `Outcome`; one that returns a value, as returning a `Result`. */
module Exceptions {

  datatype Error =
    /** System.ArgumentNullException, with the parameter name */
    | ArgumentNull(paramName: string)
    /** System.ArgumentOutOfRangeException, with the parameter name and message */
    | ArgumentOutOfRange(paramName: string, message: string)
    /** System.ObjectDisposedException raised by a guard, with the object name */
    | ObjectDisposed(objectName: string)
    /** System.ObjectDisposedException raised by the interop layer when a closed
        SafeHandle is passed to a foreign call */
    | HandleClosed
    /** System.InvalidOperationException, with its message */
    | InvalidOperation(message: string)
    /** PacketCaptureException, carrying the native engine's text */
    | CaptureError(message: string)

  datatype Outcome = Pass | Fail(error: Error)

  datatype Result<+T> = Ok(value: T) | Err(error: Error)

  /** A reference or value that may be null. */
  datatype Option<+T> = None | Some(value: T)
}
