/** Optional values: a nullable column, a form field that may be absent, a row lookup that may miss. */
module Wrappers {

  datatype Option<+T> = None | Some(value: T)

  /** The value held, or `default` when there is none (a column default). */
  function GetOr<T>(o: Option<T>, default: T): T
  {
    match o
    case Some(v) => v
    case None => default
  }
}
