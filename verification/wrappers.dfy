/** Optional values and handler results. */
module Wrappers {

  /** A value that may be absent (Python's `None`). */
  datatype Option<+T> = None | Some(value: T)

  /** The outcome of a request handler: a response body or the HTTP error it raises. */
  datatype Result<+R, +E> = Success(value: R) | Failure(error: E)
}

/** Small integer helpers shared by the ranking and paging models. */
module Math {

  function Min(a: int, b: int): (m: int)
    ensures m <= a && m <= b && (m == a || m == b)
  {
    if a <= b then a else b
  }

  function Max(a: int, b: int): (m: int)
    ensures m >= a && m >= b && (m == a || m == b)
  {
    if a >= b then a else b
  }
}
