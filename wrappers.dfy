/** Failure-carrying results: the model's stand-in for Python exceptions. */
module Wrappers {

  datatype Option<+T> = None | Some(value: T)

  /** The outcome of an operation that returns a value or raises an error. */
  datatype Result<+R, +E> = Success(value: R) | Failure(error: E)

  /** The values of the successful outcomes in s, in order. */
  function Successes<R, E>(s: seq<Result<R, E>>): (vs: seq<R>)
    ensures |vs| <= |s|
  {
    if |s| == 0 then []
    else Successes(s[..|s| - 1]) + (if s[|s| - 1].Success? then [s[|s| - 1].value] else [])
  }

  /** The outcome of a check that returns nothing or raises an error. */
  datatype Outcome<+E> = Pass | Fail(error: E)
}
