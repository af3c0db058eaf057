/** Types shared by every part of the renderer model: an optional value and the
    fixed-width unsigned integer types of the Rust source, as ranges of `nat`. */
module Common {

  datatype Option<+T> = None | Some(value: T)

  /** Rust `u8`. */
  type U8 = n: nat | n < 0x100

  /** Rust `u16`. */
  type U16 = n: nat | n < 0x1_0000

  /** Rust `u32`. */
  type U32 = n: nat | n < 0x1_0000_0000

  const U16_BOUND: nat := 0x1_0000
  const U32_BOUND: nat := 0x1_0000_0000
}
