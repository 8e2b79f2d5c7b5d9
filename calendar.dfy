/**
  The clock the booking engine reads ("now") and the instants it produces.
  Days are counted from 1970-01-01 in local time; the time zone, daylight
  saving and ISO formatting are not modelled.
 */
module Calendar {

  const MsPerHour: nat := 3_600_000

  /** "now": a local day number and the milliseconds elapsed since that day's midnight. */
  datatype Clock = Clock(day: int, ms: nat)

  /** An instant at a whole minute of a local day. */
  datatype Instant = Instant(day: int, hour: nat, minute: nat)

  /** `Date.getDay()`: 0 = Sunday, ..., 6 = Saturday (1970-01-01 was a Thursday). */
  function Weekday(day: int): (w: nat)
    ensures w < 7
  {
    (day + 4) % 7
  }

  /** `setHours(hours, 0, 0, 0)` on the given day: an hour of 24 or more rolls over
      into the following days, so the result names the same moment with hour < 24. */
  function AtHour(day: int, hours: nat): (t: Instant)
    ensures t.hour < 24 && t.minute == 0
    ensures t.day * 24 + t.hour == day * 24 + hours
    ensures hours < 24 ==> t.day == day && t.hour == hours
  {
    Instant(day + hours / 24, hours % 24, 0)
  }

  /** The instant is strictly earlier than "now" (`targetDate < now`). */
  predicate Before(t: Instant, now: Clock)
  {
    t.day < now.day || (t.day == now.day && t.hour * MsPerHour + t.minute * 60_000 < now.ms)
  }
}
