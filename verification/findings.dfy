/**
 * The same-day start as the source writes it, next to the corrected start
 * that `DayPlan.DayStart` models.
 *
 * Two things differ. The lead time added to the current time is `$delay`, a
 * variable the method never assigns, so it is 0 instead of the configured
 * delay minutes. And the begin is rendered with `date('g:i')`, which drops
 * AM/PM, then read back with `strtotime`, which takes the result as a
 * 24-hour time on today's date: an afternoon begin becomes a night or
 * morning one.
 */
module Findings {
  import opened LocalClock
  import opened Settings
  import opened PhpValues
  import opened DayPlan

  /** `strtotime(date('g:i', $begin))`: always between 1:00 and 12:59 today. */
  function ReparsedBegin(begin: int, clock: Clock): (t: int)
    ensures Midnight(clock.now, clock.zone) + HourSeconds <= t < Midnight(clock.now, clock.zone) + 13 * HourSeconds
  {
    var f := Face(begin, clock.zone);
    Midnight(clock.now, clock.zone) + f.hour * HourSeconds + f.minute * MinuteSeconds
  }

  /** Day `i`'s first slot time as the source computes it. */
  function DayStartAsWritten(clock: Clock, cfg: Config, i: int): Stamp
    requires cfg.interval > 0
  {
    var open := TodayAt(clock, cfg.Opening(WeekdayOf(clock, i)));
    if i == 0 then
      var begin := PickupBegin(clock.now, cfg.interval);  // `time() + $delay` with `$delay` unset
      if !LooseLe(open, Time(begin)) then open else Time(ReparsedBegin(begin, clock))
    else open
  }

  /**
   * The 12-hour round trip returns a whole-minute begin of today unchanged
   * exactly when it lies between 1:00 and 12:59; every other begin moves.
   */
  lemma ReparseKeepsOnlyOneToTwelve(begin: int, clock: Clock)
    requires Midnight(clock.now, clock.zone) <= begin < Midnight(clock.now, clock.zone) + DaySeconds
    requires (begin - Midnight(clock.now, clock.zone)) % MinuteSeconds == 0
    ensures ReparsedBegin(begin, clock) == begin
        <==> Midnight(clock.now, clock.zone) + HourSeconds <= begin < Midnight(clock.now, clock.zone) + 13 * HourSeconds
  {
    var m := Midnight(clock.now, clock.zone);
    var s := begin - m;
    var k := (m + clock.zone.utcOffset) / DaySeconds;
    assert m + clock.zone.utcOffset == k * DaySeconds;
    SplitByDay(begin + clock.zone.utcOffset, k, s);
    assert SecondOfDay(begin, clock.zone) == s;
    var h := s / HourSeconds;
    var r := s % HourSeconds;
    assert s == h * HourSeconds + r;
    assert (r / MinuteSeconds) * MinuteSeconds == r;
    var f := Face(begin, clock.zone);
    assert f.minute * MinuteSeconds == r;
    assert ReparsedBegin(begin, clock) == m + f.hour * HourSeconds + r;
    if 1 <= h <= 12 {
      assert f.hour == h;
    } else if h == 0 {
      assert f.hour == 12;
    } else {
      assert f.hour == h - 12;
    }
  }

  /**
   * At 9:20 with a 60-minute delay and a 30-minute interval, the source's
   * first slot today is 10:00, only 40 minutes away, because the delay it
   * adds is unset. The corrected start is 11:00.
   */
  lemma UnsetDelayCounterexample()
    ensures var clock := Clock(33600, Zone(0, "UTC"));
      var cfg := Config(map[], map[], {}, 60, 30, 0, 1);
      && !IsClosed(clock, cfg, 0)
      && DayStartAsWritten(clock, cfg, 0) == Time(36000)
      && 36000 < clock.now + cfg.delayMinutes * MinuteSeconds
      && DayStart(clock, cfg, 0) == Time(39600)
  {
    var clock := Clock(33600, Zone(0, "UTC"));
    var cfg := Config(map[], map[], {}, 60, 30, 0, 1);
    assert Midnight(clock.now, clock.zone) == 0;
    assert PickupBegin(33600, 30) == 36000;
    assert Face(36000, clock.zone) == ClockFace(10, 0);
    assert PickupBegin(33600 + 3600, 30) == 39600;
  }

  /**
   * At 14:00 with no delay, opening 10:00 and a 30-minute interval, the
   * begin is 14:30; the source turns it into "2:30" and reads that back as
   * 2:30 in the night, before both the current time and opening time. The
   * corrected start is 14:30.
   */
  lemma MeridiemCounterexample()
    ensures var clock := Clock(50400, Zone(0, "UTC"));
      var cfg := Config(map[], map[], {}, 0, 30, 0, 1);
      && !IsClosed(clock, cfg, 0)
      && DayStartAsWritten(clock, cfg, 0) == Time(9000)
      && 9000 < clock.now && 9000 < 36000
      && DayStart(clock, cfg, 0) == Time(52200)
  {
    var clock := Clock(50400, Zone(0, "UTC"));
    assert Midnight(clock.now, clock.zone) == 0;
    assert PickupBegin(50400, 30) == 52200;
    assert Face(52200, clock.zone) == ClockFace(2, 30);
  }
}
