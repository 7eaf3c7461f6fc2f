/**
 * The plugin's configuration as the generator reads it with `get_option`,
 * with the defaults it falls back to.
 */
module Settings {
  import opened Wrappers
  import opened LocalClock

  type MinuteOfDay = m: int | 0 <= m < 1440

  /** A stored opening or closing time: blank, or an `H:MM` clock time
      given as minutes after midnight. */
  datatype TimeSetting = Blank | At(minute: MinuteOfDay)

  const DefaultOpening := At(600)      // '10:00'
  const DefaultClosing := At(1140)     // '19:00'
  const DefaultDelayMinutes := 60
  const DefaultInterval := 30
  const DefaultDelayDays := 0
  const DefaultDaysAhead := 1

  /**
   * What the options table holds. A missing map entry or `None` is an option
   * that was never saved, for which `get_option` returns its default.
   * `closures` holds the calendar days (see `LocalClock.DayNumber`) whose
   * `m/d/Y` rendering is one of the lines of the closings text area.
   */
  datatype StoredOptions = StoredOptions(
    openings: map<Weekday, TimeSetting>,
    closings: map<Weekday, TimeSetting>,
    closures: set<int>,
    delayMinutes: Option<int>,
    interval: Option<int>,
    delayDays: Option<int>,
    daysAhead: Option<int>)

  /** The configuration after defaults are applied. `interval` is in minutes. */
  datatype Config = Config(
    openings: map<Weekday, TimeSetting>,
    closings: map<Weekday, TimeSetting>,
    closures: set<int>,
    delayMinutes: int,
    interval: int,
    delayDays: int,
    daysAhead: int)
  {
    function Opening(w: Weekday): TimeSetting {
      if w in openings then openings[w] else DefaultOpening
    }

    function Closing(w: Weekday): TimeSetting {
      if w in closings then closings[w] else DefaultClosing
    }
  }

  /** The four numeric `get_option` reads with their defaults. */
  function Load(stored: StoredOptions): (cfg: Config)
    ensures stored.delayMinutes.None? ==> cfg.delayMinutes == DefaultDelayMinutes
    ensures stored.interval.None? ==> cfg.interval == DefaultInterval
    ensures stored.delayDays.None? ==> cfg.delayDays == DefaultDelayDays
    ensures stored.daysAhead.None? ==> cfg.daysAhead == DefaultDaysAhead
    ensures stored.delayMinutes.Some? ==> cfg.delayMinutes == stored.delayMinutes.value
    ensures stored.interval.Some? ==> cfg.interval == stored.interval.value
    ensures stored.delayDays.Some? ==> cfg.delayDays == stored.delayDays.value
    ensures stored.daysAhead.Some? ==> cfg.daysAhead == stored.daysAhead.value
    ensures cfg.openings == stored.openings && cfg.closings == stored.closings && cfg.closures == stored.closures
  {
    Config(stored.openings, stored.closings, stored.closures,
           stored.delayMinutes.GetOr(DefaultDelayMinutes),
           stored.interval.GetOr(DefaultInterval),
           stored.delayDays.GetOr(DefaultDelayDays),
           stored.daysAhead.GetOr(DefaultDaysAhead))
  }
}
