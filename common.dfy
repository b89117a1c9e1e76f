/** Small value types shared by every page of the dashboard. */
module Common {

  /** A value that may be missing (a nullable column, a `Map.get` miss). */
  datatype Option<T> = None | Some(value: T) {
    function GetOr(default: T): T {
      match this
      case Some(v) => v
      case None => default
    }
  }

  /** The outcome of a check that either yields a value or an error. */
  datatype Result<T, E> = Ok(value: T) | Err(error: E)

  /** What `Number(text)` yields for a form field: a finite number, or
      NaN / Infinity, which `Number.isFinite` rejects. */
  datatype Num = Finite(v: real) | NonFinite {
    predicate IsFinite() { Finite? }
  }
}
