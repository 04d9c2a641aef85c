/** The optional value that every part of the model shares, and how one looked earlier. */
module Wrappers {
  datatype Option<+T> = None | Some(value: T)

  /** An index as it stood when only what lies before m had been seen. */
  function AsOf(r: Option<nat>, m: nat): Option<nat> {
    if r.Some? && r.value < m then r else None
  }
}
