/** The optional-value type used for every field the cluster objects may leave unset. */
module Wrappers {

  /** `None` is "absent", distinct from any present value (so `Some(false)` is not `None`). */
  datatype Option<+T> = None | Some(value: T) {

    /** The encapsulated value, or `default` when absent. */
    function GetOr(default: T): T {
      match this
      case Some(v) => v
      case None => default
    }
  }
}
