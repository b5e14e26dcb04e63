/** Small value types shared by the modules of this model. */
module Common {

  /** A value that may be absent: the model of a null `std::shared_ptr`,
      an unset promise or a missing map entry. */
  datatype Option<T> = None | Some(value: T)

  /** C++ `unsigned` (32 bits on the platforms the programs target). */
  type u32 = x: int | 0 <= x < 0x1_0000_0000

  /** C++ `unsigned long` (64 bits on LP64 platforms). */
  type u64 = x: int | 0 <= x < 0x1_0000_0000_0000_0000

  const U64Max: u64 := 0xFFFF_FFFF_FFFF_FFFF
}
