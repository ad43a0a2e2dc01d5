/** Octets, as packets and messages are made of. */
module Bytes {
  type Byte = x: int | 0 <= x < 256
}
