/** Small shared vocabulary: optional values, results and octets. */
module Base {

  /** Go's nil-able values and Python's None. */
  datatype Option<+T> = None | Some(value: T)

  /** An operation that either produces a value or fails with an error. */
  datatype Result<+T, +E> = Ok(value: T) | Err(error: E)

  /** An 8-bit unsigned integer: Go's `byte`, one element of a Python 2 `str`. */
  newtype uint8 = x: int | 0 <= x < 0x100
}
