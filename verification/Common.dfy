/** The C types and the optional values that several parts of the model share. */
module Common {

  datatype Option<+T> = None | Some(value: T)

  type Byte = b: int | 0 <= b < 256

  /** The number of values of an unsigned 32-bit integer. */
  const U32: nat := 0x1_0000_0000
}
