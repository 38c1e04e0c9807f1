/** The optional-value datatype used wherever the source returns `null`,
    leaves a property out of a `Partial<...>` record, or gets `NaN` back. */
module Wrappers {

  datatype Option<+T> = None | Some(value: T) {

    /** The wrapped value, or `default` when there is none. */
    function GetOr(default: T): T {
      match this
      case Some(v) => v
      case None => default
    }
  }
}
