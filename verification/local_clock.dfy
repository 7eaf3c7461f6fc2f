/**
 * Wall-clock arithmetic of the pickup-time generator.
 *
 * A time is a Unix timestamp in seconds, as PHP's `time()` returns it. The
 * store's zone is a fixed offset from UTC plus the zone identifier that
 * `date('e')` prints; daylight-saving transitions are not modelled. Calendar
 * days are counted from 1 January 1970 in the store's zone.
 */
module LocalClock {

  const MinuteSeconds := 60
  const HourSeconds := 3600
  const HalfDaySeconds := 43200
  const DaySeconds := 86400

  datatype Weekday = Monday | Tuesday | Wednesday | Thursday | Friday | Saturday | Sunday

  /** The weekday with index `k`, Monday being 0 and Sunday 6. */
  function WeekdayAt(k: int): Weekday
    requires 0 <= k < 7
  {
    if k == 0 then Monday
    else if k == 1 then Tuesday
    else if k == 2 then Wednesday
    else if k == 3 then Thursday
    else if k == 4 then Friday
    else if k == 5 then Saturday
    else Sunday
  }

  /** Day 0 of the Unix epoch, 1 January 1970, was a Thursday. */
  function WeekdayOfDay(day: int): Weekday {
    WeekdayAt((day + 3) % 7)
  }

  /** The zone `date_default_timezone_set` installs, as an offset and a name. */
  datatype Zone = Zone(utcOffset: int, name: string)

  /** Seconds since local midnight of the instant `t`. */
  function SecondOfDay(t: int, zone: Zone): (s: int)
    ensures 0 <= s < DaySeconds
  {
    (t + zone.utcOffset) % DaySeconds
  }

  /** The local calendar day of `t`, counted from 1 January 1970. */
  function DayNumber(t: int, zone: Zone): int {
    (t + zone.utcOffset) / DaySeconds
  }

  /** The instant of local midnight that begins the day of `t`: what
      `strtotime('0:00')` returns while `t` is the current time. */
  function Midnight(t: int, zone: Zone): (m: int)
    ensures m <= t < m + DaySeconds
    ensures SecondOfDay(m, zone) == 0
    ensures DayNumber(m, zone) == DayNumber(t, zone)
  {
    t - SecondOfDay(t, zone)
  }

  /** What `date('g:i', t)` shows: a 12-hour clock with no AM/PM marker.
      `date('h_i', t)` shows the same two numbers, the hour zero-padded. */
  datatype ClockFace = ClockFace(hour: int, minute: int)

  function Face(t: int, zone: Zone): (f: ClockFace)
    ensures 1 <= f.hour <= 12
    ensures 0 <= f.minute < 60
  {
    var s := SecondOfDay(t, zone);
    var h := s / HourSeconds;
    ClockFace(if h % 12 == 0 then 12 else h % 12, (s % HourSeconds) / MinuteSeconds)
  }

  /** The face of a time `minute` minutes after some local midnight. */
  function FaceOfMinute(minute: int): (f: ClockFace)
    requires 0 <= minute < 1440
  {
    var h := minute / 60;
    ClockFace(if h % 12 == 0 then 12 else h % 12, minute % 60)
  }

  /** Reading the clock at `minute` minutes past midnight gives the
      12-hour hour and the minute of that moment. */
  lemma FaceAtMinute(midnight: int, zone: Zone, minute: int)
    requires SecondOfDay(midnight, zone) == 0
    requires 0 <= minute < 1440
    ensures Face(midnight + minute * MinuteSeconds, zone) == FaceOfMinute(minute)
  {
    var t := midnight + minute * MinuteSeconds;
    var k := (midnight + zone.utcOffset) / DaySeconds;
    assert midnight + zone.utcOffset == k * DaySeconds;
    assert t + zone.utcOffset == k * DaySeconds + minute * 60;
    assert SecondOfDay(t, zone) == minute * 60;
    assert (minute * 60) / HourSeconds == minute / 60;
    assert (minute * 60) % HourSeconds == (minute % 60) * 60;
  }

  /** Dividing `q * DaySeconds + s` by a day gives back `q` and `s`. */
  lemma SplitByDay(a: int, q: int, s: int)
    requires a == q * DaySeconds + s
    requires 0 <= s < DaySeconds
    ensures a / DaySeconds == q && a % DaySeconds == s
  {
  }

  /** Shifting a second-of-day by half a day moves the hour by twelve and
      leaves the minute alone. */
  lemma ShiftHalfDay(s: int)
    requires 0 <= s < HalfDaySeconds
    ensures (s + HalfDaySeconds) / HourSeconds == s / HourSeconds + 12
    ensures (s + HalfDaySeconds) % HourSeconds == s % HourSeconds
  {
  }

  /** The 12-hour face cannot tell a time from the one twelve hours later. */
  lemma FaceForgetsMeridiem(t: int, zone: Zone)
    ensures Face(t + HalfDaySeconds, zone) == Face(t, zone)
  {
    var s := SecondOfDay(t, zone);
    var q := (t + zone.utcOffset) / DaySeconds;
    assert t + zone.utcOffset == q * DaySeconds + s;
    if s < HalfDaySeconds {
      SplitByDay(t + HalfDaySeconds + zone.utcOffset, q, s + HalfDaySeconds);
      ShiftHalfDay(s);
    } else {
      SplitByDay(t + HalfDaySeconds + zone.utcOffset, q + 1, s - HalfDaySeconds);
      ShiftHalfDay(s - HalfDaySeconds);
    }
  }
}
