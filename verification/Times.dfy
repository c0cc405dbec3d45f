/** Instants, durations and the option type shared by all modules. */
module Times {
  datatype Option<+T> = None | Some(value: T)

  /** Nanoseconds since 1970-01-01T00:00:00Z. */
  type Instant = int

  const NS := 1_000_000_000
  const MINUTE := 60 * NS
  const HOUR := 60 * MINUTE
  const DAY := 24 * HOUR

  /** The whole second an instant lies in, rounded down. */
  function Unix(t: Instant): int {
    t / NS
  }

  function Max(a: int, b: int): int {
    if a < b then b else a
  }

  function Min(a: int, b: int): int {
    if a < b then a else b
  }
}
