/** Machine words as integers with explicit ranges, and optional values. */
module Words {
  type Byte = x: int | 0 <= x < 0x100
  type Bytes = seq<Byte>

  datatype Option<+T> = None | Some(value: T)
}
