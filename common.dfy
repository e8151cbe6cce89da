/** Result and error types shared by every service of the banking backend. */
module Common {

  datatype Option<T> = None | Some(value: T)

  /** The error classes the services throw; each carries the message the client sees. */
  datatype Error =
    | BadRequest(message: string)
    | Unauthorized(message: string)
    | Forbidden(message: string)
    | NotFound(message: string)
    | Conflict(message: string)

  /** A service call either returns a value or throws one of the errors above. */
  datatype Result<T> = Ok(value: T) | Err(error: Error)

  /** One validation failure: the input field it is reported on, and its message. */
  datatype Issue = Issue(path: string, message: string)

  /** The outcome of a schema's `safeParse`: the parsed value, or every issue found. */
  datatype Parsed<T> = Valid(value: T) | Invalid(issues: seq<Issue>)

  /** JavaScript truthiness of an optional string: `undefined`, `null` and "" are falsy. */
  predicate Truthy(s: Option<string>)
  {
    s.Some? && s.value != ""
  }

  /** The value of `s || fallback` for an optional string. */
  function OrDefault(s: Option<string>, fallback: string): string
  {
    if Truthy(s) then s.value else fallback
  }

  predicate IsDigit(c: char)
  {
    '0' <= c <= '9'
  }

  predicate AllDigits(s: string)
  {
    forall i :: 0 <= i < |s| ==> IsDigit(s[i])
  }

  function DigitChar(d: int): char
    requires 0 <= d < 10
  {
    (d + '0' as int) as char
  }
}
