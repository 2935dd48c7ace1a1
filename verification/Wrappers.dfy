/** What the whole model shares: result types, for calls that either yield a value
    or an error code as the C code's return codes and `errno` do, and removal
    from a sequence. */
module Wrappers {
  datatype Option<+T> = None | Some(value: T)

  datatype Error =
    | ZeroLengthBuffer
    | BufferTooSmall
    | BufferOverflow
    | ArgumentNotValid
    | OperationNotValid
    | OperationNotSupported
    | ClientNotConnected

  datatype Result<+T> = Ok(value: T) | Err(error: Error)

  function RemoveAt<T>(s: seq<T>, k: nat): (r: seq<T>)
    requires k < |s|
    ensures |r| == |s| - 1
  {
    s[..k] + s[k + 1..]
  }
}
