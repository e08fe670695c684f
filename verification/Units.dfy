/**
 Times in microseconds, rates in bits per second and sizes in bytes, with the rounding of
 the unit headers (data_rate.h).
 */
module Units {

  const MICROBITS_PER_BYTE := 8_000_000

  function Min(a: int, b: int): int {
    if a <= b then a else b
  }

  function Max(a: int, b: int): int {
    if a >= b then a else b
  }

  /** `DataRate * TimeDelta`: rounded to the nearest byte. */
  function BytesAt(rate: int, elapsed: int): int {
    (rate * elapsed + 4_000_000) / MICROBITS_PER_BYTE
  }

  /** `DataSize / DataRate`: truncated to a microsecond. */
  function DrainTime(debt: int, rate: int): int
    requires rate > 0
  {
    debt * MICROBITS_PER_BYTE / rate
  }
}
