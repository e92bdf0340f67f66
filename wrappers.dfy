/** Optional values, results, and the Python truthiness tests the commands apply to them. */
module Wrappers {

  datatype Option<+T> = None | Some(value: T)

  datatype Result<+T, +E> = Ok(value: T) | Err(error: E)

  /** `if s:` on an `Optional[str]`: neither `None` nor the empty string. */
  predicate Present(s: Option<string>)
  {
    s.Some? && s.value != ""
  }

  /** `if n:` on an `Optional[int]`: neither `None` nor zero. */
  predicate Nonzero(n: Option<int>)
  {
    n.Some? && n.value != 0
  }
}
