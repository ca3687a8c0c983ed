/** Byte-level arithmetic shared by every transform of bbcrack.

    Python works on unbounded ints and masks with `& 0xFF`; a byte here is a
    `bv8`, whose `+`, `-` and `^` wrap modulo 256 exactly as `& 0xFF` does on
    a Python int (also for negative intermediate values, where Python's `&`
    agrees with a Euclidean `% 256`). */
module Bytes {

  type byte = bv8

  /** A rotation count accepted by `rol`: Python raises on a negative shift,
      so `count` and `8 - count` must both lie in 0..8. It is kept as a
      bit-vector so that the shifts below stay in bit-vector arithmetic. */
  type RolCount = c: bv8 | c <= 8

  /** `rol(byte, count)`: left bit-rotation of a byte, computed as the source
      does on a wider integer and masked back to 8 bits. */
  function Rol(b: byte, count: RolCount): byte
  {
    var wide := b as bv16;
    (((wide << count) | (wide >> (8 - count as bv16))) & 0xFF) as byte
  }

  /** Rotating left by `n` and then by `8 - n` gives the byte back. */
  lemma RolInverse(b: byte, n: RolCount)
    ensures Rol(Rol(b, n), 8 - n) == b
  {
  }

  /** The four safety checks left as comments beside `rol` in the source. */
  lemma RolSafetyChecks()
    ensures Rol(1, 1) == 2
    ensures Rol(128, 1) == 1
    ensures Rol(1, 7) == 128
    ensures Rol(1, 8) == 1
  {
  }

  /** `(key + i) & 0xFF`: the incrementing key at position `i`. */
  function IncKey(key: byte, i: nat): byte
  {
    ((key as int + i) % 256) as byte
  }

  /** `(key + 0xFF - i) & 0xFF`: the decrementing key at position `i`; the
      sum goes negative once `i` exceeds `key + 255`, where the Euclidean
      `% 256` agrees with Python's `& 0xFF`. */
  function DecKey(key: byte, i: nat): byte
  {
    ((key as int + 255 - i) % 256) as byte
  }

  /** Exclusive or of all the bytes of `s` (0 for the empty sequence). */
  function XorAll(s: seq<byte>): byte
  {
    if s == [] then 0 else s[0] ^ XorAll(s[1..])
  }
}
