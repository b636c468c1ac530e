/** Values that may be absent. */
module Prelude {
  datatype Option<+T> = None | Some(value: T)
}
