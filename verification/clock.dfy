/** Time of day as `TimeOnly` holds it: a tick count (100 ns) since midnight,
    below one day; durations are signed `TimeSpan` tick counts. */
module Clock {

  const TicksPerMinute: int := 600_000_000
  const TicksPerHour: int := 60 * TicksPerMinute
  const TicksPerDay: int := 24 * TicksPerHour

  type Time = t: int | 0 <= t < TicksPerDay

  /** A `TimeSpan`, in ticks; it may be negative or longer than a day. */
  type Duration = int

  /** `new TimeOnly(hour, minute)`. */
  function At(hour: int, minute: int): (t: Time)
    requires 0 <= hour < 24 && 0 <= minute < 60
    ensures t / TicksPerMinute == 60 * hour + minute
    ensures t % TicksPerMinute == 0
  {
    (60 * hour + minute) * TicksPerMinute
  }

  /** `TimeSpan.FromHours(n)`. */
  function Hours(n: int): Duration {
    n * TicksPerHour
  }

  /** `TimeOnly.Add`: the sum wraps around midnight, whole days are dropped. */
  function Add(t: Time, d: Duration): (r: Time)
    ensures (t + d - r) % TicksPerDay == 0
    ensures 0 <= t + d < TicksPerDay ==> r == t + d
  {
    (t + d) % TicksPerDay
  }

  /** `TimeOnly.IsBetween(start, end)`: the half-open range from `start` up to
      but excluding `end`, wrapping past midnight when `start > end`. */
  predicate IsBetween(t: Time, start: Time, end: Time) {
    if start <= end then start <= t < end
    else t >= start || t < end
  }

  /** The ticks from `from` forward to `t`, going round midnight if needed. */
  function Offset(from: Time, t: Time): (r: Time)
    ensures Add(from, r) == t
  {
    (t - from) % TicksPerDay
  }

  /** `IsBetween` means: walking forward from `start`, `t` comes before `end`. */
  lemma IsBetweenByOffset(t: Time, start: Time, end: Time)
    ensures IsBetween(t, start, end) <==> Offset(start, t) < Offset(start, end)
  {
  }

  /** A range whose ends coincide holds nothing. */
  lemma IsBetweenEmpty(t: Time, start: Time)
    ensures !IsBetween(t, start, start)
  {
  }
}
