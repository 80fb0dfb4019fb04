/** Python's `min` and `max` on two numbers, shared by the server's duration
    range and the client's backoff cap. */
module Reals {

  /** `min(a, b)`: the first argument unless the second is smaller. */
  function Min(a: real, b: real): real
  {
    if b < a then b else a
  }

  /** `max(a, b)`: the first argument unless the second is larger. */
  function Max(a: real, b: real): real
  {
    if a < b then b else a
  }
}
