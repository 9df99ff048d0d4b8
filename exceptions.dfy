/** The exceptions the core raises: the three custom classes of exceptions.py that the
    core uses, and Python's built-in TypeError and KeyError. */
module Exceptions {

  datatype Error =
    | TypeError(message: string)
    | KeyError(key: string)
    | ResponseContentError(message: string)
    | HTTPStatusNotOK(message: string)
    | StatusError(message: string)

  /** A value, or the exception raised instead of returning it. */
  datatype Result<+T> = Ok(value: T) | Err(error: Error)

  /** `str(error)` as an f-string renders it. A KeyError renders as the repr of its
      argument, which for the keys and messages used here is the text in single quotes. */
  function Render(e: Error): (r: string)
    ensures !e.KeyError? ==> r == e.message
    ensures e.KeyError? ==> |r| == |e.key| + 2 && r[0] == r[|r| - 1] == '\'' && r[1..|r| - 1] == e.key
  {
    match e
    case TypeError(m) => m
    case KeyError(k) => "'" + k + "'"
    case ResponseContentError(m) => m
    case HTTPStatusNotOK(m) => m
    case StatusError(m) => m
  }
}
