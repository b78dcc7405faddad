/** Bytes as the wire carries them. */
module Octets {
  type Byte = x: int | 0 <= x < 256
}
