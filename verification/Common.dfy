/** Types shared by every module: the option type and the machine integers the program stores. */
module Common {
  datatype Option<+T> = None | Some(value: T)

  const U32_MAX: nat := 0xFFFF_FFFF

  type u32 = x: nat | x <= U32_MAX

  /** The sixteen bits of a relative humidity. */
  type Humidity = x: nat | x <= 0xFFFF

  type i16 = x: int | -0x8000 <= x < 0x8000
}
