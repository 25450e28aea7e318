/** The Option type stands for the `None` results of the Python locators. */
module Wrappers {
  datatype Option<+T> = None | Some(value: T)
}
