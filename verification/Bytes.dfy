/** The unit of everything that is sent. */
module Bytes {
  newtype byte = b: int | 0 <= b < 256
}
