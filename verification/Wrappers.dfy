/** Types the other modules share. */
module Wrappers {
  datatype Option<+T> = None | Some(value: T)

  type uint8 = x: int | 0 <= x < 0x100
}
