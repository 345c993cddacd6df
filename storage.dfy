/**
 * What a page sees when it reads one key of the browser's local storage and
 * parses it as JSON. A missing key and an empty string are both falsy in
 * `if (raw)`, so both read as `Absent`; text that does not parse is `Corrupt`.
 */
module Storage {

  datatype Stored<+T> = Absent | Corrupt | Present(value: T)

  /** The list a page falls back to when nothing usable is stored: `[]`. */
  function OrEmpty<T>(s: Stored<seq<T>>): (r: seq<T>)
    ensures s.Present? ==> r == s.value
    ensures !s.Present? ==> r == []
  {
    if s.Present? then s.value else []
  }
}
