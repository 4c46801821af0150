/**
 * Shared value types: optional values, 64-bit unsigned integers with Go's
 * wrap-around, and the ways the exporter process can stop (`log.Fatal`, a
 * runtime panic), which the model turns into ordinary results.
 */
module Wrappers {

  datatype Option<+T> = None | Some(value: T)

  const TWO_64: int := 0x1_0000_0000_0000_0000
  const TWO_62: int := 0x4000_0000_0000_0000

  /** Go's `uint64`. */
  type U64 = x: int | 0 <= x < TWO_64

  /** Reduction modulo 2^64, which is what Go's `uint64` arithmetic does on overflow. */
  function Wrap(x: int): (r: U64)
    ensures 0 <= x < TWO_64 ==> r == x
    ensures (r - x) % TWO_64 == 0
  {
    x % TWO_64
  }

  /** `a + b` on Go `uint64` values. */
  function AddU64(a: U64, b: U64): (r: U64)
    ensures a + b < TWO_64 ==> r == a + b
    ensures a + b >= TWO_64 ==> r == a + b - TWO_64
  {
    Wrap(a + b)
  }

  /** Why the process stopped: `log.Fatal` (with the text it logs) or a runtime panic. */
  datatype Halt = LogFatal(detail: string) | Panic(detail: string)

  /** A computation that either yields a value or stops the whole process. */
  datatype Result<+T> = Ok(value: T) | Halted(halt: Halt)
}
