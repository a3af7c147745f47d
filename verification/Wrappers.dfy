// Small types shared by the other modules.
module Wrappers {
  // The fixed-width integers of the program, where their width matters.
  type u32 = x: int | 0 <= x < 0x1_0000_0000
  type i32 = x: int | -0x8000_0000 <= x < 0x8000_0000

  datatype Option<+T> = None | Some(value: T)
}
