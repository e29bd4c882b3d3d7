/** Fixed-width integers of the Rust program and the wrapping `usize`
    arithmetic it uses.  The program targets 64-bit Windows, so `usize`
    is 64 bits wide. */
module Machine {

  type uint16 = x: int | 0 <= x < 0x1_0000
  type uint32 = x: int | 0 <= x < 0x1_0000_0000
  type int32 = x: int | -0x8000_0000 <= x < 0x8000_0000
  type usize = x: int | 0 <= x < 0x1_0000_0000_0000_0000

  const USIZE_MODULUS: int := 0x1_0000_0000_0000_0000

  /** `i32::unsigned_abs`: never overflows, even for `i32::MIN`. */
  function UnsignedAbs(x: int32): uint32 {
    var v: int := x;
    if v < 0 then -v else v
  }

  /** `x as usize` for an `i32`: sign extension, i.e. two's complement modulo 2^64. */
  function I32AsUsize(x: int32): usize {
    x % USIZE_MODULUS
  }

  /** `usize::wrapping_add`. */
  function WrappingAdd(a: usize, b: usize): usize {
    (a + b) % USIZE_MODULUS
  }

  /** `usize::wrapping_sub`. */
  function WrappingSub(a: usize, b: usize): usize {
    (a - b) % USIZE_MODULUS
  }

  /** Reduction modulo 2^64 of a value that lies one modulus above the range. */
  lemma ModOnce(x: int)
    requires USIZE_MODULUS <= x < 2 * USIZE_MODULUS
    ensures x % USIZE_MODULUS == x - USIZE_MODULUS
  {
  }

  /** Subtracting what was added gives back the original value,
      whatever wrapped in between. */
  lemma WrappingSubAdd(a: usize, b: usize)
    ensures WrappingSub(WrappingAdd(a, b), b) == a
  {
    if a + b >= USIZE_MODULUS {
      ModOnce(a + b);
      assert WrappingAdd(a, b) == a + b - USIZE_MODULUS;
      assert WrappingAdd(a, b) - b == a - USIZE_MODULUS;
    }
  }

  /** Adding a sign-extended `i32` to a small `usize` gives the
      mathematical sum when that sum is non-negative, and a value of at least
      2^64 - 2^31 when it is negative. */
  lemma WrappingAddSigned(a: usize, c: int32)
    requires a <= 0x8000_0000
    ensures 0 <= a + c ==> WrappingAdd(a, I32AsUsize(c)) == a + c
    ensures a + c < 0 ==> WrappingAdd(a, I32AsUsize(c)) >= USIZE_MODULUS - 0x8000_0000
  {
    if c < 0 {
      assert I32AsUsize(c) == USIZE_MODULUS + c;
      if 0 <= a + c {
        ModOnce(a + USIZE_MODULUS + c);
      } else {
        assert WrappingAdd(a, I32AsUsize(c)) == a + USIZE_MODULUS + c;
      }
    } else {
      assert I32AsUsize(c) == c;
    }
  }
}
