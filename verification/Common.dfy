/** Types shared by every component. */
module Common {

  datatype Option<+T> = None | Some(value: T)

  /** A byte of Go's `[]byte` and `string`. */
  type byte = x: int | 0 <= x < 256

  type Bytes = seq<byte>
}
