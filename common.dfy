/** Values shared by every part of the monitor model. */
module Common {

  /** An optional value: a ring slot with no data point yet, a failed parse,
      or Go's NaN average, all read as None. */
  datatype Option<+T> = None | Some(value: T) {

    /** The value held, or the given default when there is none. */
    function GetOr(default: T): T {
      match this
      case Some(v) => v
      case None => default
    }
  }

  /** An instant, in nanoseconds relative to the Unix epoch. */
  type Time = int

  /** Go's zero time.Time (1 January of year 1, UTC), in the same unit. */
  const ZeroTime: Time := -62135596800 * 1_000_000_000

  /** Nanoseconds per second, the unit of time.Duration. */
  const Second: int := 1_000_000_000
}
