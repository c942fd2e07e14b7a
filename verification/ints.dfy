/** Fixed-width integer types of the feed handler, modelled as ranges of `int`. */
module Ints {

  /** Rust `u8`: one byte of a wire buffer. */
  type u8 = x: int | 0 <= x < 0x100

  /** Rust `u128`: the storage type of every `Numeric` field. */
  type u128 = x: int | 0 <= x < 0x1_0000_0000_0000_0000_0000_0000_0000_0000

  /** Rust `i32`: the storage type of `Price`. */
  type i32 = x: int | -0x8000_0000 <= x < 0x8000_0000

  const U128_MODULUS: int := 0x1_0000_0000_0000_0000_0000_0000_0000_0000
  const U128_MAX: u128 := 0xFFFF_FFFF_FFFF_FFFF_FFFF_FFFF_FFFF_FFFF

  /** 256^n: one more than the largest value that n big-endian bytes can hold. */
  function Pow256(n: nat): (r: nat)
    ensures r >= 1
  {
    if n == 0 then 1 else 0x100 * Pow256(n - 1)
  }

  /** The widths that the feed uses, written out. */
  lemma Pow256Values()
    ensures Pow256(1) == 0x100
    ensures Pow256(2) == 0x1_0000
    ensures Pow256(3) == 0x100_0000
    ensures Pow256(4) == 0x1_0000_0000
    ensures Pow256(8) == 0x1_0000_0000_0000_0000
    ensures Pow256(12) == 0x1_0000_0000_0000_0000_0000_0000
    ensures Pow256(16) == U128_MODULUS
  {
  }

  lemma {:induction false} Pow256Monotone(m: nat, n: nat)
    requires m <= n
    ensures Pow256(m) <= Pow256(n)
    decreases n
  {
    if m < n {
      Pow256Monotone(m, n - 1);
    }
  }
}
