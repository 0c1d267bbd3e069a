/** Go's fixed-width unsigned integers, as used by the vault's byte slices and
  * key-derivation parameters. */
module Bytes {
  /** `uint8` / `byte`. */
  newtype u8 = x: int | 0 <= x < 0x100

  /** `uint32`. */
  newtype u32 = x: int | 0 <= x < 0x1_0000_0000

  /** A slice of `n` zero bytes. */
  function Zeros(n: nat): (z: seq<u8>)
    ensures |z| == n && forall i :: 0 <= i < n ==> z[i] == 0
  {
    seq(n, _ => 0)
  }
}
