/** Shared vocabulary of the model: optional values and the outcome of a request handler. */
module Common {

  /** A value that may be absent (JavaScript `null`/`undefined`, Python `None`). */
  datatype Option<+T> = None | Some(value: T)

  /** What a handler answers: a value, or the HTTP status and message of its error response. */
  datatype Outcome<+T> = Ok(value: T) | Fail(status: int, message: string)

  /** The message an error raised by the language runtime carries (a `TypeError`, an `IndexError`);
      its exact wording is the engine's and is not modelled. */
  const RUNTIME_ERROR: string := "runtime error"

  function Min(a: real, b: real): (m: real)
    ensures m <= a && m <= b && (m == a || m == b)
  {
    if a <= b then a else b
  }
}
