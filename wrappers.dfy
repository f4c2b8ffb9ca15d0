/** An optional value: the Kotlin nullable results of the detector. */
module Wrappers {
  datatype Option<+T> = None | Some(value: T)
}
