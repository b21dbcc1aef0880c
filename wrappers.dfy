/** The Option type that stands for Rust's `Option<T>`. */
module Wrappers {

  datatype Option<+T> = None | Some(value: T) {

    /** `Option::unwrap_or`. */
    function UnwrapOr(default: T): T
    {
      match this
      case Some(v) => v
      case None => default
    }
  }
}
