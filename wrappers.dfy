/** Option and Result, as the Rust code uses them, plus the fixed-width
    unsigned integer types of the source. */
module Wrappers {

  datatype Option<+T> = None | Some(value: T)

  datatype Result<+T, +E> = Ok(value: T) | Err(error: E) {
    predicate IsFailure() {
      Err?
    }

    function PropagateFailure<U>(): Result<U, E>
      requires Err?
    {
      Err(error)
    }

    function Extract(): T
      requires Ok?
    {
      value
    }
  }

  /** Rust's `u8`. */
  type uint8 = x: int | 0 <= x < 0x100

  /** Rust's `u32`. */
  type uint32 = x: int | 0 <= x < 0x1_0000_0000

  const U32_MODULUS: int := 0x1_0000_0000

  /** `x - y` on `u32` as a release build computes it (wrapping). */
  function WrapSub(x: nat, y: nat): (r: uint32)
    ensures y <= x < U32_MODULUS ==> r == x - y
  {
    (x - y) % U32_MODULUS
  }

  /** `x + y` on `u32` as a release build computes it (wrapping). */
  function WrapAdd(x: nat, y: nat): (r: uint32)
    ensures x + y < U32_MODULUS ==> r == x + y
  {
    (x + y) % U32_MODULUS
  }
}
