/** Machine integers: bytes, 16-bit words, and what a conversion to a C type leaves of a number. */
module Bytes {
  type byte = b: int | 0 <= b < 256
  type word = w: int | 0 <= w < 65536

  const UINT32 := 0x1_0000_0000

  predicate Fits32(x: int) {
    -0x8000_0000 <= x < 0x8000_0000
  }

  /** Conversion to int16_t. */
  function Int16(x: int): int {
    (x + 32768) % 65536 - 32768
  }

  /** The 16-bit number that differs by a multiple of 2^16. */
  lemma Int16Is(x: int)
    ensures -32768 <= Int16(x) < 32768 && (x - Int16(x)) % 65536 == 0
  {
  }

  predicate Bounded(x: seq<int>, bound: int) {
    forall k :: 0 <= k < |x| ==> -bound <= x[k] <= bound
  }
}
