/** Option and Result: the absent value and the error path of the pages' handlers. */
module Wrappers {

  /** A value that may be missing: JavaScript's `null`/`undefined` or an optional field. */
  datatype Option<+T> = None | Some(value: T)

  /** The outcome of a handler that either succeeds with a value or stops with an error. */
  datatype Result<+R, +E> = Success(value: R) | Failure(error: E)

  /** `s || undefined`: an empty form field is stored as absent. */
  function EmptyAsAbsent(s: string): (r: Option<string>)
    ensures r.None? <==> s == ""
    ensures r.Some? ==> r.value == s
  {
    if s == "" then None else Some(s)
  }

  /**
   * `s || fallback` for a string that may be missing: the string when it is
   * present and non-empty, the fallback otherwise.
   */
  function OrElse(s: Option<string>, fallback: string): (r: string)
    ensures s.Some? && s.value != "" ==> r == s.value
    ensures s.None? || s.value == "" ==> r == fallback
  {
    if s.Some? && s.value != "" then s.value else fallback
  }
}
