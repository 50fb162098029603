/** Kernel-wide constants and the value types built from them (core/src/config.rs). */
module Config {
  const TASK_MAX: nat := 16
  const TIME_SLICE: nat := 50
  const PRI_MIN: nat := 127
  const PRI_INV: nat := 255
  const U32: int := 0x1_0000_0000
  const I32_MAX: int := 0x7FFF_FFFF

  /** A task identifier: an index into the TCB table. */
  type Tid = t: nat | t < 16

  /** The value of `x` after it is stored in an `i32`. */
  function WrapI32(x: int): (r: int)
    ensures -I32_MAX - 1 <= x <= I32_MAX ==> r == x
  {
    (x + 0x8000_0000) % 0x1_0000_0000 - 0x8000_0000
  }

  /** The value of `x` after it is stored in a `u32`. */
  function WrapU32(x: int): (r: nat)
    ensures 0 <= x < U32 ==> r == x
  {
    x % 0x1_0000_0000
  }

  datatype Option<+T> = None | Some(value: T)
}
