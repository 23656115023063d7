/** Small shared datatypes. */
module Common {

  /** A value that may be absent: JavaScript's `undefined`/`null` versus a present value. */
  datatype Option<+T> = None | Some(value: T)
}
