/** Optional values, results and outcomes used for the source's null returns and exceptions. */
module Wrappers {

  /** A value or nothing (Java's null). */
  datatype Option<+T> = None | Some(value: T)

  /** A value, or the exception thrown instead of returning one. */
  datatype Result<+T, +E> = Ok(value: T) | Err(error: E)

  /** A void call that either returns normally or throws. */
  datatype Outcome<+E> = Pass | Fail(error: E)

  /** A witness that a non-empty set has an element, for choosing one in a loop. */
  lemma Member<T>(s: set<T>) returns (x: T)
    requires s != {}
    ensures x in s
  {
    x :| x in s;
  }
}
