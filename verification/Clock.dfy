/** Instants are integers: nanoseconds on one clock. */
module Clock {

  type Instant = int

  const SECOND: int := 1_000_000_000
}
