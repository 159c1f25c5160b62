/** Small value wrappers shared by every module of the catalog model. */
module Wrappers {

  /** A value that may be absent: Python's `Optional[T]`, where `None` is absent. */
  datatype Option<+T> = None | Some(value: T)

  /** A keyword argument of a model constructor: supplied by the caller, or omitted so that
      the field takes its declared default. */
  datatype Arg<+T> = Omitted | Given(value: T) {

    /** The supplied value, or the field's default when the argument was omitted. */
    function Or(default: T): T {
      match this
      case Given(v) => v
      case Omitted => default
    }
  }
}
