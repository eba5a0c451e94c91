/** Small shared vocabulary: an optional value, standing in for Python's `None`. */
module Common {

  /** A value that may be absent (Python's `None`, or a missing dictionary key). */
  datatype Option<+T> = None | Some(value: T)
}
