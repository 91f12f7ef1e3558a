/** Octets, shared by the buffer, name and framing models. */
module Bytes {
  type byte = x: int | 0 <= x < 256

  function Min(a: nat, b: nat): nat { if a <= b then a else b }
}
