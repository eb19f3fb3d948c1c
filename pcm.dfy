/** Fixed-width integer types of the audio path. */
module Pcm {

  const I16_MIN: int := -32768
  const I16_MAX: int := 32767

  /** A signed 16-bit PCM sample (Rust's `i16`). */
  type Int16 = x: int | I16_MIN <= x <= I16_MAX

  /** An unsigned byte (Rust's `u8`). */
  type Byte = x: int | 0 <= x < 256
}
