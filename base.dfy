/** Fixed-width C integer types, the byte type and Option, shared by every module. */
module Base {

  /** `uint8_t`, as used for bytes on the wire and for `ErrorCode` storage. */
  newtype Byte = b: int | 0 <= b < 0x100

  type U8 = x: int | 0 <= x < 0x100
  type I8 = x: int | -0x80 <= x < 0x80
  type U16 = x: int | 0 <= x < 0x1_0000
  type U32 = x: int | 0 <= x < 0x1_0000_0000
  /** C `int` on the 32-bit targets this firmware runs on. */
  type I32 = x: int | -0x8000_0000 <= x < 0x8000_0000

  datatype Option<+T> = None | Some(value: T)

  /** `static_cast<uint16_t>(x)`: keeps the low 16 bits (two's complement). */
  function ToU16(x: int): (r: U16)
    ensures (x - r) % 0x1_0000 == 0
    ensures 0 <= x < 0x1_0000 ==> r == x
  {
    x % 0x1_0000
  }

  /** Implicit conversion to `uint32_t`, as when a `size_t` length is passed to the driver. */
  function ToU32(x: int): (r: U32)
    ensures (x - r) % 0x1_0000_0000 == 0
    ensures 0 <= x < 0x1_0000_0000 ==> r == x
  {
    x % 0x1_0000_0000
  }

  /** Implicit conversion to `uint8_t`, as when a `size_t` is passed where the driver takes a `uint8_t`. */
  function ToU8(x: int): (r: U8)
    ensures (x - r) % 0x100 == 0
    ensures 0 <= x < 0x100 ==> r == x
  {
    x % 0x100
  }
}

/**
 * The errno values the core returns or tests for, as Zephyr's C library numbers them.
 * Only their signs and their being distinct matter to the model.
 */
module Errno {
  const EIO: int := 5
  const EAGAIN: int := 11
  const ENOMEM: int := 12
  const EBUSY: int := 16
  const ENODEV: int := 19
  const EINVAL: int := 22
  const ETIMEDOUT: int := 116
  const ENOTSUP: int := 134
}
