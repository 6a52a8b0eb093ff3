/** The optional value used for absent DOM elements, empty storage slots and
    missing measurements. */
module Wrappers {
  datatype Option<+T> = None | Some(value: T)
}
