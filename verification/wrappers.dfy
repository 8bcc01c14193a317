/** Small shared vocabulary used by several modules. */
module Wrappers {

  /** An optional value: a result that may be absent. */
  datatype Option<+T> = None | Some(value: T)
}
