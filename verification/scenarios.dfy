/**
 * Concrete runs of the corrected generator, on 1 January 1970 (a Thursday)
 * in a zone at UTC, with the default settings: hours 10:00 to 19:00, a
 * 60-minute delay, a 30-minute interval, no delay days, a one-day window.
 */
module Scenarios {
  import opened Wrappers
  import opened LocalClock
  import opened Settings
  import opened PhpValues
  import opened Entries
  import opened DayPlan
  import opened Options
  import opened HourOptions

  /** The settings of a store that never saved any option. */
  predicate IsDefault(cfg: Config) {
    cfg == Load(StoredOptions(map[], map[], {}, None, None, None, None))
  }

  /** With nothing saved, every weekday is open 10:00 to 19:00, nothing is
      closed, the delay is 60 minutes, the interval 30, and the window is
      today alone. */
  lemma NothingSavedGivesDefaults(cfg: Config)
    requires IsDefault(cfg)
    ensures forall w :: cfg.Opening(w) == At(600) && cfg.Closing(w) == At(1140)
    ensures cfg.closures == {}
    ensures cfg.delayMinutes == 60 && cfg.interval == 30
    ensures cfg.delayDays == 0 && cfg.daysAhead == 1
  {
  }

  /** 9:00, 18:45 on 1 January 1970 in a zone at UTC. */
  predicate IsJan1At(clock: Clock, now: int) {
    clock == Clock(now, Zone(0, "UTC"))
  }

  /** Today at 9:00 is open, and its first slot time is 10:30. */
  lemma MorningToday(clock: Clock, cfg: Config)
    requires IsJan1At(clock, 32400) && IsDefault(cfg)
    ensures WeekdayOf(clock, 0) == Thursday
    ensures !IsClosed(clock, cfg, 0)
    ensures |SlotTimes(clock, cfg, 0)| > 0 && SlotTimes(clock, cfg, 0)[0] == 37800
  {
    assert Midnight(clock.now, clock.zone) == 0;
    assert DateOf(clock, 0) == 0 && WeekdayOf(clock, 0) == Thursday;
    assert cfg.Closing(Thursday) == At(1140) && cfg.Opening(Thursday) == At(600);
    assert TodayAt(clock, At(1140)) == Time(68400);
    assert !IsClosed(clock, cfg, 0);
    assert PickupBegin(clock.now + SameDayDelay(cfg), cfg.interval) == 37800;
    assert DayStart(clock, cfg, 0) == Time(37800);
  }

  /** At UTC, 37800 seconds into 1970 read 10:30 on the clock. */
  lemma HalfPastTen(zone: Zone)
    requires zone.utcOffset == 0
    ensures Face(37800, zone) == ClockFace(10, 30)
  {
    FaceAtMinute(0, zone, 630);
  }

  /** At 9:00 the first slot offered is "Today 10:30": 9:00 plus the delay
      is 10:00, already a whole interval, plus one more interval. */
  lemma MorningFirstSlot(clock: Clock, cfg: Config)
    requires IsJan1At(clock, 32400) && IsDefault(cfg)
    ensures AllEntries(clock, cfg)[0]
         == Slot(SlotKey(Thursday, ClockFace(10, 30), "UTC"), SlotLabel(Today, ClockFace(10, 30)))
    ensures !Generate(clock, cfg).suppressReview
  {
    MorningToday(clock, cfg);
    HalfPastTen(clock.zone);
    var day := DayEntries(clock, cfg, 0);
    assert day == Render(SlotTimes(clock, cfg, 0), 0, Thursday, clock.zone);
    assert day[0] == SlotEntry(37800, 0, Thursday, clock.zone);
    assert Window(clock, cfg, 0, 1) == day + Window(clock, cfg, 1, 1);
    assert AllEntries(clock, cfg) == day;
    assert OffersSlots(clock, cfg, 0);
    SuppressIffNoDayOffers(clock, cfg);
  }

  /** Today at 18:45 is open, but its computed start is after closing:
      18:45 plus the delay is 19:45, rounded up to 20:00, plus one interval
      is 20:30. */
  lemma EveningToday(clock: Clock, cfg: Config)
    requires IsJan1At(clock, 67500) && IsDefault(cfg)
    ensures !IsClosed(clock, cfg, 0)
    ensures DayEntries(clock, cfg, 0) == []
  {
    assert Midnight(clock.now, clock.zone) == 0;
    assert DateOf(clock, 0) == 0 && WeekdayOf(clock, 0) == Thursday;
    assert cfg.Closing(Thursday) == At(1140) && cfg.Opening(Thursday) == At(600);
    assert TodayAt(clock, At(1140)) == Time(68400);
    assert !IsClosed(clock, cfg, 0);
    assert PickupBegin(clock.now + SameDayDelay(cfg), cfg.interval) == 73800;
    LateStartEmptiesToday(clock, cfg);
  }

  /** So at 18:45 today emits no slot and no sentinel: the only option is
      the placeholder, the review is suppressed, and no reason is shown. */
  lemma EveningLeavesOnlyPlaceholder(clock: Clock, cfg: Config)
    requires IsJan1At(clock, 67500) && IsDefault(cfg)
    ensures Generate(clock, cfg) == SlotResult([NoAvailablePickupTimes], [], true)
  {
    EveningToday(clock, cfg);
    assert Window(clock, cfg, 0, 1) == DayEntries(clock, cfg, 0) + Window(clock, cfg, 1, 1);
    assert AllEntries(clock, cfg) == [];
  }

  /** A store open 9:00 to 21:30 emits a 9:00 and a 21:00 slot with the
      same key; the options keep the key once, at the 9:00 position, with
      the label of the 21:00 slot. */
  lemma HalfDayApartKeysMerge(t: int, i: int, w: Weekday, zone: Zone)
    ensures var es := Render([t, t + HalfDaySeconds], i, w, zone);
      Flatten(es) == [(es[0].key, es[1].display)]
  {
    var es := Render([t, t + HalfDaySeconds], i, w, zone);
    KeysRepeatHalfADayApart(zone, w, i, t);
    assert es[..1][..0] == [];
    assert es[..|es| - 1] == es[..1];
    assert Flatten(es[..1]) == [(es[0].key, es[0].display)];
  }
}
