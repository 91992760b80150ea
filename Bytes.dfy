/** Unsigned 8-bit values, the `uint8_t` of the bootloader client. */
module Bytes {

  /** One octet on the serial line or in a response record. */
  newtype byte = x: int | 0 <= x < 256

  /** The conventional optional value, used for decoders that can fail. */
  datatype Option<+T> = None | Some(value: T)
}
