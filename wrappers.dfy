/** Option type shared by the wrapper models: an empty or filled callback slot,
    a nullable owning pointer. */
module Wrappers {
  datatype Option<+T> = None | Some(value: T)
}
