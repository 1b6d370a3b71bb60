/** Java's null references and exceptions, as values.
    `Option` stands for a reference that may be null, `Result` and `Outcome`
    for a call that may throw one of the exceptions listed in `Exc`. */
module Wrappers {

  datatype Option<+T> = None | Some(value: T) {
    function GetOr(default: T): T {
      match this
      case Some(v) => v
      case None => default
    }
  }

  /** The Java exceptions the modelled code can throw. */
  datatype Exc =
    | NullPointer
    | ClassCast
    | IllegalArgument
    | IndexOutOfBounds
    | IO
    | Parse
    | DateTimeParse

  datatype Result<+T> = Ok(value: T) | Err(error: Exc)

  datatype Outcome = Pass | Fail(error: Exc)

  /** Java's `a + s` for a String `s` that may be null: null is written as "null". */
  function JavaText(s: Option<string>): (r: string)
    ensures s.Some? ==> r == s.value
    ensures s.None? ==> r == "null"
  {
    match s
    case Some(v) => v
    case None => "null"
  }

  /** `String.startsWith`. */
  predicate StartsWith(s: string, prefix: string) {
    |prefix| <= |s| && s[..|prefix|] == prefix
  }
}
