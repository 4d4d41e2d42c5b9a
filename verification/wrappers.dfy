/** Small value wrappers shared by the whole model. */
module Wrappers {

  /** A value that may be missing: an unparseable field, an empty search, a dropped trip. */
  datatype Option<+T> = None | Some(value: T) {

    /** The wrapped value, or `default` when missing (Python's `dict.get(key, default)`). */
    function GetOr(default: T): T {
      match this
      case Some(v) => v
      case None => default
    }
  }

  /** A cost-per-hour bound that starts at +infinity and only ever shrinks. */
  datatype Bound = Unbounded | AtMost(limit: real) {

    /** True when `x` is strictly better (smaller) than the bound. */
    predicate Admits(x: real) {
      Unbounded? || x < limit
    }
  }
}
