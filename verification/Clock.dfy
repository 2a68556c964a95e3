/** Local time as a day number and a nanosecond within that day. Every day has 86400 seconds. */
module Clock {

  const NANOS: int := 1_000_000_000
  const NANOS_PER_DAY: int := 86_400 * NANOS

  datatype RawTime = Time(day: int, nano: int)

  type Time = t: RawTime | 0 <= t.nano < NANOS_PER_DAY witness Time(0, 0)

  /** The zero `time.Time`, used as "no bound": midnight of day 0. */
  const ZERO: Time := Time(0, 0)

  predicate Before(a: Time, b: Time) {
    a.day < b.day || (a.day == b.day && a.nano < b.nano)
  }

  function Midnight(day: int): Time {
    Time(day, 0)
  }

  /** One nanosecond before the midnight that ends `day`. */
  function EndOfDay(day: int): Time {
    Time(day, NANOS_PER_DAY - 1)
  }

  function SecondOfDay(t: Time): (s: int)
    ensures 0 <= s < 86_400
  {
    t.nano / NANOS
  }

  /** `t` truncated to the second. */
  function TruncateSecond(t: Time): Time {
    Time(t.day, SecondOfDay(t) * NANOS)
  }

  /** `time.Date(year, month, day, hour, minute, second, 0)`: out-of-range values carry over into other days. */
  function Date(day: int, hour: int, minute: int, second: int): Time {
    var s := hour * 3600 + minute * 60 + second;
    Time(day + s / 86_400, (s % 86_400) * NANOS)
  }

  /** A message with the time it was logged at, which is also the time tag it is read back with. */
  datatype Stamped<+M> = Stamped(msg: M, time: Time)

  /** What reading one log line gives: an error, a line to skip, or a message and its time. */
  datatype Decoded<+M> = Malformed | Ignored | Entry(msg: M, time: Time)
}
