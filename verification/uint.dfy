/**
 * Fixed-width quantities of the search: 256-bit unsigned fee values (U256),
 * bytes and 32-byte hashes. U256 values are unbounded naturals kept below
 * 2^256; wrap-around never happens in the source (plain `+` and `*` panic on
 * overflow, `saturating_add` clamps), so overflow appears as preconditions on
 * the operations that would panic and as an explicit clamp in SatAdd.
 */
module Uint {
  /** 2^256 */
  const U256_LIMIT: nat := 0x1_0000_0000_0000_0000_0000_0000_0000_0000_0000_0000_0000_0000_0000_0000_0000_0000
  /** The largest U256 value, 2^256 - 1. */
  const MAX_U256: nat := U256_LIMIT - 1
  /** 2^64, the bound of a `u64`: the gas limit is read as one (src/main.rs:33). */
  const U64_LIMIT: nat := 0x1_0000_0000_0000_0000

  type U256 = x: nat | x <= MAX_U256
  type Byte = b: int | 0 <= b < 256
  type Hash32 = h: seq<Byte> | |h| == 32 witness seq(32, _ => 0)

  /** `U256::saturating_add`: the sum, clamped at the largest U256 value. */
  function SatAdd(a: U256, b: nat): (r: U256)
    ensures a <= r
    ensures r == a + b || r == MAX_U256
    ensures a + b <= MAX_U256 ==> r == a + b
    ensures a + b >= MAX_U256 ==> r == MAX_U256
  {
    if a + b <= MAX_U256 then a + b else MAX_U256
  }

  /** Saturating steps compose: adding b then c saturating equals adding b + c saturating. */
  lemma SatAddCompose(a: U256, b: nat, c: nat)
    ensures SatAdd(SatAdd(a, b), c) == SatAdd(a, b + c)
  {
  }
}
