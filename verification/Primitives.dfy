/** Fixed-width integer ranges and the two result shapes shared by every module. */
module Primitives {

  type u32 = n: nat | n < 0x1_0000_0000
  type u64 = n: nat | n < 0x1_0000_0000_0000_0000

  datatype Option<+T> = None | Some(value: T)

  datatype Result<+E> = Ok | Err(error: E)

  /** A parsed URL: its scheme and its canonical text. */
  datatype Url = Url(scheme: string, text: string)

  /** Addition of one as `fetch_add(1)` performs it on a 32-bit atomic: it wraps. */
  function Succ32(n: u32): u32 {
    (n + 1) % 0x1_0000_0000
  }

  /** The same on a 64-bit atomic. */
  function Succ64(n: u64): u64 {
    (n + 1) % 0x1_0000_0000_0000_0000
  }

  /** Counting on in 64 bits is counting on without bound, taken modulo 2^64. */
  lemma WrapSucc64(n: nat)
    ensures Succ64(n % 0x1_0000_0000_0000_0000) == (n + 1) % 0x1_0000_0000_0000_0000
  {
  }

  lemma WrapSucc32(n: nat)
    ensures Succ32(n % 0x1_0000_0000) == (n + 1) % 0x1_0000_0000
    ensures (n + 1) % 0x1_0000_0000 == n + 1 || n + 1 >= 0x1_0000_0000
  {
  }
}
