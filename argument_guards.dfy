/** The argument and state guards (ArgumentGuards.cs). Each guard either raises or
    does nothing; as pure functions they cannot change anything when they pass. */
module ArgumentGuards {
  import opened Exceptions

  /** Raises ArgumentNullException(name) when the reference is null. */
  function ThrowIfNull<T>(value: Option<T>, name: string): (r: Outcome)
    ensures r.Fail? <==> value.None?
    ensures r.Fail? ==> r.error == ArgumentNull(name)
  {
    if value.None? then Fail(ArgumentNull(name)) else Pass
  }

  /** Raises ArgumentNullException(name), not an argument-invalid error, when the
      string is null or empty. */
  function ThrowIfNullOrEmpty(s: Option<string>, name: string): (r: Outcome)
    ensures r.Fail? <==> (s.None? || |s.value| == 0)
    ensures r.Fail? ==> r.error == ArgumentNull(name)
  {
    if s.None? || s.value == [] then Fail(ArgumentNull(name)) else Pass
  }

  /** Raises ObjectDisposedException(name) when the handle is closed. */
  function ThrowIfDisposed(isClosed: bool, name: string): (r: Outcome)
    ensures r.Fail? <==> isClosed
    ensures r.Fail? ==> r.error == ObjectDisposed(name)
  {
    if isClosed then Fail(ObjectDisposed(name)) else Pass
  }
}
