/** What several components share: optional values, positive numbers, machine words, the sample interval. */
module Basics {
  datatype Option<+T> = None | Some(value: T)

  function Listed<T>(x: Option<T>): seq<T> { if x.Some? then [x.value] else [] }

  type posnat = n: nat | n > 0 witness 1

  /** Division. The divisors it is used with are never zero; see `DivisorsPositive` in `Matrix` and `MeyerPredictor`. */
  function Ratio(a: real, b: real): real { if b == 0.0 then 0.0 else a / b }

  const WORD32: int := 0x1_0000_0000
  const WORD64: int := 0x1_0000_0000_0000_0000

  /** The nominal distance of two samples. */
  const SAMPLE_INTERVAL_NS: nat := 10_000
}
