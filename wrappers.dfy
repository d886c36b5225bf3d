/** Failure values: `None` stands for a `java.util.EmptyStackException`. */
module Wrappers {

  datatype Option<+T> = None | Some(value: T)
}
