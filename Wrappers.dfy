/** Option and Result, the stand-ins for `null` and for thrown exceptions. */
module Wrappers {

  /** A value that may be absent, as a C# reference that may be `null`. */
  datatype Option<+T> = None | Some(value: T)

  /** The outcome of an operation that either returns a value or throws. */
  datatype Result<+T, +E> = Success(value: T) | Failure(error: E)

  /** `FirstOrDefault` on a sequence of references: the head, or `null`. */
  function FirstOrNone<T>(s: seq<T>): (r: Option<T>)
    ensures r.None? <==> s == []
    ensures r.Some? ==> r.value == s[0]
  {
    if s == [] then None else Some(s[0])
  }
}
