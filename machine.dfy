/**
 * Machine integer widths of the AVR targets and the wrapping arithmetic the
 * firmware relies on (Rust's `wrapping_add`/`wrapping_sub` on `u16`, and C's
 * implicit truncation of an `int` result stored into a `uint16_t`).
 */
module Machine {
  const Modulus16 := 0x1_0000

  type uint8 = x: int | 0 <= x < 0x100
  type uint16 = x: int | 0 <= x < 0x1_0000
  type uint32 = x: int | 0 <= x < 0x1_0000_0000

  /** An 8-bit register or data byte. */
  type Byte = bv8

  /** `a.wrapping_add(b)` on `u16`; also `(uint16_t)(a + b)` in C. */
  function WrappingAdd16(a: uint16, b: uint16): uint16
  {
    (a + b) % Modulus16
  }

  /** `a.wrapping_sub(b)` on `u16`. */
  function WrappingSub16(a: uint16, b: uint16): uint16
  {
    (a - b) % Modulus16
  }

  /** Wrapping subtraction undoes wrapping addition: the elapsed tick count survives a wrap. */
  lemma SubUndoesAdd(a: uint16, k: uint16)
    ensures WrappingSub16(WrappingAdd16(a, k), a) == k
  {
    if a + k >= Modulus16 {
      assert WrappingAdd16(a, k) == a + k - Modulus16;
    } else {
      assert WrappingAdd16(a, k) == a + k;
    }
  }
}
