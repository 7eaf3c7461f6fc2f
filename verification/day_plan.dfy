/**
 * One turn of the generator's day loop: whether day `i` of the window is
 * closed and why, when its first slot is, and the entries it emits.
 */
module DayPlan {
  import opened LocalClock
  import opened Settings
  import opened PhpValues
  import opened Entries

  /** The current time, as `time()` returns it, and the store's zone. */
  datatype Clock = Clock(now: int, zone: Zone)

  /** The sanity check on the delay days: a delay that covers the whole
      window is dropped, any other is kept. */
  function EffectiveDelayDays(delayDays: int, daysAhead: int): (d: int)
    ensures delayDays >= daysAhead ==> d == 0
    ensures delayDays < daysAhead ==> d == delayDays
  {
    if delayDays >= daysAhead then 0 else delayDays
  }

  /** The calendar day `i` days after today. */
  function DateOf(clock: Clock, i: int): int {
    DayNumber(clock.now, clock.zone) + i
  }

  function WeekdayOf(clock: Clock, i: int): Weekday {
    WeekdayOfDay(DateOf(clock, i))
  }

  /** `strtotime` of a stored time. It always lands on TODAY's date, also
      when day `i` of the loop is a later one. */
  function TodayAt(clock: Clock, s: TimeSetting): Stamp {
    StrToTime(s, Midnight(clock.now, clock.zone))
  }

  /** Opening equals closing and is blank or zero: the weekday is closed
      every week. PHP 7 compares a string with `0` by its leading number,
      so every `0:MM` time, in the hour after midnight, counts as zero. */
  predicate ClosedEveryWeek(open: TimeSetting, close: TimeSetting) {
    open == close && (open.Blank? || open.minute < 60)
  }

  /** Day `i` is a listed closure, or it is today and the current time
      compares at or after closing time, or its weekday is closed every week. */
  predicate IsClosed(clock: Clock, cfg: Config, i: int) {
    var w := WeekdayOf(clock, i);
    || DateOf(clock, i) in cfg.closures
    || (i == 0 && LooseLe(TodayAt(clock, cfg.Closing(w)), Time(clock.now)))
    || ClosedEveryWeek(cfg.Opening(w), cfg.Closing(w))
  }

  /** The explanation a closed day carries, by priority: today first, then a
      weekly closure, then a one-off closure. */
  function ClosedReason(clock: Clock, cfg: Config, i: int): Reason {
    var w := WeekdayOf(clock, i);
    if i == 0 then UnavailableToday
    else if ClosedEveryWeek(cfg.Opening(w), cfg.Closing(w)) then UnavailableEvery(w)
    else UnavailableOn(w)
  }

  /** PHP's `ceil($x / $p)` for a positive `$p`. */
  function CeilDiv(x: int, p: int): (c: int)
    requires p > 0
    ensures x <= c * p < x + p
  {
    -((-x) / p)
  }

  /** The product of a positive and a negative factor is at most minus the
      positive one; of two positive factors, at least either. */
  lemma ProductBounds(d: int, p: int)
    requires p > 0
    ensures d >= 1 ==> d * p >= p
    ensures d <= -1 ==> d * p <= -p
  {
    if d >= 1 {
      assert d * p == p + (d - 1) * p;
    } else if d <= -1 {
      assert d * p == -p + (d + 1) * p;
    }
  }

  /** `$k * $p` is divisible by `$p`. */
  lemma MultipleOf(k: int, p: int)
    requires p > 0
    ensures (k * p) % p == 0
  {
    var q := (k * p) / p;
    var r := (k * p) % p;
    assert k * p == q * p + r;
    assert (k - q) * p == k * p - q * p;
    ProductBounds(k - q, p);
  }

  /** The same-day begin: `x` rounded up to a whole interval on the Unix
      clock, plus one more interval. It is a multiple of the interval and
      lies at least one and less than two intervals after `x`. */
  function PickupBegin(x: int, interval: int): (b: int)
    requires interval > 0
    ensures b % (interval * MinuteSeconds) == 0
    ensures x + interval * MinuteSeconds <= b < x + 2 * interval * MinuteSeconds
  {
    var p := interval * MinuteSeconds;
    var c := CeilDiv(x, p);
    MultipleOf(c + 1, p);
    assert (c + 1) * p == c * p + p;
    assert 2 * interval * MinuteSeconds == 2 * p;
    c * p + p
  }

  /** The same-day lead time in seconds. The source adds `$delay` here, a
      variable it never assigns, so its lead time is 0; the model adds the
      configured delay minutes, as the setting evidently intends. */
  function SameDayDelay(cfg: Config): int {
    cfg.delayMinutes * MinuteSeconds
  }

  /** Today's start: opening time when the begin is earlier, else the begin
      itself, kept as a 24-hour timestamp. */
  function SameDayStart(begin: int, open: Stamp): (s: Stamp)
    ensures s.Time? && begin <= s.at
    ensures open.Time? ==> open.at <= s.at && (s.at == begin || s.at == open.at)
    ensures open.NotATime? ==> s.at == begin
  {
    if !LooseLe(open, Time(begin)) then open else Time(begin)
  }

  /** The first slot of day `i`: the computed same-day start on day 0,
      opening time on every other day. */
  function DayStart(clock: Clock, cfg: Config, i: int): Stamp
    requires cfg.interval > 0
  {
    var open := TodayAt(clock, cfg.Opening(WeekdayOf(clock, i)));
    if i == 0 then SameDayStart(PickupBegin(clock.now + SameDayDelay(cfg), cfg.interval), open)
    else open
  }

  /** Bounds the number of turns the slot loop still makes. */
  function Budget(t: Stamp, end: Stamp): nat {
    match end
    case Time(e) =>
      if t.Time? then (if t.at <= e then e - t.at + 1 else 0)
      else (if 0 <= e then e + 1 else 0) + 1
    case NotATime => if t.Time? && t.at == 0 then 1 else 0
  }

  /** The slot loop: times from `t` on, `step` seconds apart, while the
      time compares at or before `end`. */
  function Expand(t: Stamp, end: Stamp, step: int): (ts: seq<int>)
    requires step > 0
    requires t.NotATime? ==> end.Time?
    ensures |ts| == 0 <==> !LooseLe(t, end)
    ensures |ts| > 0 ==> ts[0] == AsInt(t)
    decreases Budget(t, end)
  {
    if LooseLe(t, end) then [AsInt(t)] + Expand(Time(AsInt(t) + step), end, step) else []
  }

  /** A turn of the slot loop emits the current time and moves one step on. */
  lemma ExpandStep(t: Stamp, end: Stamp, step: int)
    requires step > 0
    requires t.NotATime? ==> end.Time?
    requires LooseLe(t, end)
    ensures Expand(t, end, step) == [AsInt(t)] + Expand(Time(AsInt(t) + step), end, step)
  {
  }

  /** Consecutive slot times are exactly `step` apart. */
  lemma {:induction false} ExpandSteps(t: Stamp, end: Stamp, step: int)
    requires step > 0
    requires t.NotATime? ==> end.Time?
    ensures var ts := Expand(t, end, step);
      forall k :: 0 < k < |ts| ==> ts[k] == ts[k - 1] + step
    decreases Budget(t, end)
  {
    if LooseLe(t, end) {
      var next := Time(AsInt(t) + step);
      ExpandStep(t, end, step);
      ExpandSteps(next, end, step);
      var rest := Expand(next, end, step);
      var ts := Expand(t, end, step);
      forall k | 0 < k < |ts|
        ensures ts[k] == ts[k - 1] + step
      {
        if k > 1 {
          assert ts[k] == rest[k - 1] && ts[k - 1] == rest[k - 2];
        }
      }
    }
  }

  /** No slot time is before the start. */
  lemma {:induction false} ExpandFrom(t: Stamp, end: Stamp, step: int)
    requires step > 0
    requires t.NotATime? ==> end.Time?
    ensures var ts := Expand(t, end, step);
      forall k :: 0 <= k < |ts| ==> AsInt(t) <= ts[k]
    decreases Budget(t, end)
  {
    if LooseLe(t, end) {
      var next := Time(AsInt(t) + step);
      ExpandStep(t, end, step);
      ExpandFrom(next, end, step);
      var rest := Expand(next, end, step);
      var ts := Expand(t, end, step);
      forall k | 0 < k < |ts|
        ensures AsInt(t) <= ts[k]
      {
        assert ts[k] == rest[k - 1];
      }
    }
  }

  /** Between two times, every slot time is at or before closing. */
  lemma {:induction false} ExpandUpTo(t: Stamp, end: Stamp, step: int)
    requires step > 0
    requires t.Time? && end.Time?
    ensures var ts := Expand(t, end, step);
      forall k :: 0 <= k < |ts| ==> ts[k] <= end.at
    decreases Budget(t, end)
  {
    if LooseLe(t, end) {
      var next := Time(AsInt(t) + step);
      ExpandStep(t, end, step);
      ExpandUpTo(next, end, step);
      var rest := Expand(next, end, step);
      var ts := Expand(t, end, step);
      forall k | 0 < k < |ts|
        ensures ts[k] <= end.at
      {
        assert ts[k] == rest[k - 1];
      }
    }
  }

  /** One more step after the last slot time would pass closing. */
  lemma {:induction false} ExpandOvershoots(t: Stamp, end: Stamp, step: int)
    requires step > 0
    requires end.Time?
    ensures var ts := Expand(t, end, step);
      |ts| > 0 ==> end.at < ts[|ts| - 1] + step
    decreases Budget(t, end)
  {
    if LooseLe(t, end) {
      var next := Time(AsInt(t) + step);
      ExpandStep(t, end, step);
      ExpandOvershoots(next, end, step);
      var rest := Expand(next, end, step);
      if |rest| == 0 {
        assert !LooseLe(next, end);
      } else {
        assert Expand(t, end, step)[|rest|] == rest[|rest| - 1];
      }
    }
  }

  /** The slot times step by exactly `step`, none is before the start, each
      is at or before closing, and the next one would be after closing. */
  lemma ExpandBounds(t: Stamp, end: Stamp, step: int)
    requires step > 0
    requires t.NotATime? ==> end.Time?
    ensures var ts := Expand(t, end, step);
      && (forall k :: 0 < k < |ts| ==> ts[k] == ts[k - 1] + step)
      && (forall k :: 0 <= k < |ts| ==> AsInt(t) <= ts[k])
      && (t.Time? && end.Time? ==> forall k :: 0 <= k < |ts| ==> ts[k] <= end.at)
      && (end.Time? && |ts| > 0 ==> end.at < ts[|ts| - 1] + step)
  {
    ExpandSteps(t, end, step);
    ExpandFrom(t, end, step);
    if t.Time? && end.Time? {
      ExpandUpTo(t, end, step);
    }
    if end.Time? {
      ExpandOvershoots(t, end, step);
    }
  }

  /** The slot times are the start plus a whole number of intervals. */
  lemma ExpandIsProgression(t: Stamp, end: Stamp, step: int)
    requires step > 0
    requires t.NotATime? ==> end.Time?
    ensures var ts := Expand(t, end, step);
      forall k :: 0 <= k < |ts| ==> ts[k] == AsInt(t) + k * step
  {
    var ts := Expand(t, end, step);
    ExpandBounds(t, end, step);
    forall k | 0 <= k < |ts|
      ensures ts[k] == AsInt(t) + k * step
    {
      ProgressionAt(ts, AsInt(t), step, k);
    }
  }

  /** In a sequence that starts at `a` and grows by `step` each place, place
      `k` holds `a + k * step`. */
  lemma {:induction false} ProgressionAt(ts: seq<int>, a: int, step: int, k: int)
    requires 0 <= k < |ts|
    requires ts[0] == a
    requires forall j :: 0 < j < |ts| ==> ts[j] == ts[j - 1] + step
    ensures ts[k] == a + k * step
    decreases k
  {
    if k > 0 {
      ProgressionAt(ts, a, step, k - 1);
      assert k * step == (k - 1) * step + step;
    }
  }

  /** The times of an open day's slots. */
  function SlotTimes(clock: Clock, cfg: Config, i: int): seq<int>
    requires cfg.interval > 0
    requires !IsClosed(clock, cfg, i)
  {
    var w := WeekdayOf(clock, i);
    Expand(DayStart(clock, cfg, i), TodayAt(clock, cfg.Closing(w)), cfg.interval * MinuteSeconds)
  }

  /** The entry of the slot at time `t` on day `i`, a `w`: key
      `{Weekday}_h_i e`, label `{Today|Weekday} g:i`. */
  function SlotEntry(t: int, i: int, w: Weekday, zone: Zone): Entry {
    Slot(SlotKey(w, Face(t, zone), zone.name), SlotLabel(if i == 0 then Today else OnDay(w), Face(t, zone)))
  }

  /** The entries of a day's slot times. */
  function Render(ts: seq<int>, i: int, w: Weekday, zone: Zone): seq<Entry> {
    seq(|ts|, k requires 0 <= k < |ts| => SlotEntry(ts[k], i, w, zone))
  }

  /** What day `i` contributes: one sentinel when closed, else its slots. */
  function DayEntries(clock: Clock, cfg: Config, i: int): seq<Entry>
    requires cfg.interval > 0
  {
    if IsClosed(clock, cfg, i) then [Closed(ClosedReason(clock, cfg, i))]
    else Render(SlotTimes(clock, cfg, i), i, WeekdayOf(clock, i), clock.zone)
  }

  /** A day emits a sentinel exactly when it is closed, and a closed day
      emits that one sentinel and no slot. */
  lemma SentinelIffClosed(clock: Clock, cfg: Config, i: int)
    requires cfg.interval > 0
    ensures var d := DayEntries(clock, cfg, i);
      (exists m :: 0 <= m < |d| && d[m].Closed?) <==> IsClosed(clock, cfg, i)
    ensures IsClosed(clock, cfg, i) ==> DayEntries(clock, cfg, i) == [Closed(ClosedReason(clock, cfg, i))]
  {
    var d := DayEntries(clock, cfg, i);
    if IsClosed(clock, cfg, i) {
      assert d[0].Closed?;
    }
  }

  /**
   * The reason of a closed day: "today" exactly on day 0; on a later day
   * "on {Weekday}s" exactly when the weekday is closed every week, and
   * otherwise "on {Weekday}", which then means the date is a listed closure.
   */
  lemma ReasonPriority(clock: Clock, cfg: Config, i: int)
    requires IsClosed(clock, cfg, i)
    ensures var r := ClosedReason(clock, cfg, i);
      var w := WeekdayOf(clock, i);
      && (r == UnavailableToday <==> i == 0)
      && (r == UnavailableEvery(w) <==> i != 0 && ClosedEveryWeek(cfg.Opening(w), cfg.Closing(w)))
      && (r == UnavailableOn(w) <==> i != 0 && !ClosedEveryWeek(cfg.Opening(w), cfg.Closing(w)))
      && (r == UnavailableOn(w) ==> DateOf(clock, i) in cfg.closures)
  {
  }

  /** When the current time is at or after today's closing time, today
      emits exactly the sentinel "Pickup unavailable today". */
  lemma PastClosingClosesToday(clock: Clock, cfg: Config)
    requires cfg.interval > 0
    requires cfg.Closing(WeekdayOf(clock, 0)).At?
    requires clock.now >= Midnight(clock.now, clock.zone) + cfg.Closing(WeekdayOf(clock, 0)).minute * MinuteSeconds
    ensures DayEntries(clock, cfg, 0) == [Closed(UnavailableToday)]
  {
  }

  /** A listed closure on a later day, of a weekday that is not closed every
      week, emits exactly "Pickup unavailable on {Weekday}", whatever its hours. */
  lemma ListedClosureSentinel(clock: Clock, cfg: Config, i: int)
    requires cfg.interval > 0
    requires i != 0
    requires DateOf(clock, i) in cfg.closures
    requires !ClosedEveryWeek(cfg.Opening(WeekdayOf(clock, i)), cfg.Closing(WeekdayOf(clock, i)))
    ensures DayEntries(clock, cfg, i) == [Closed(UnavailableOn(WeekdayOf(clock, i)))]
  {
  }

  /** A weekday closed every week emits "Pickup unavailable on {Weekday}s" on
      each later day that falls on it, one week after another. */
  lemma WeeklyClosureRepeats(clock: Clock, cfg: Config, i: int)
    requires cfg.interval > 0
    requires i > 0
    requires ClosedEveryWeek(cfg.Opening(WeekdayOf(clock, i)), cfg.Closing(WeekdayOf(clock, i)))
    ensures WeekdayOf(clock, i + 7) == WeekdayOf(clock, i)
    ensures DayEntries(clock, cfg, i) == [Closed(UnavailableEvery(WeekdayOf(clock, i)))]
    ensures DayEntries(clock, cfg, i + 7) == DayEntries(clock, cfg, i)
  {
    assert (DateOf(clock, i + 7) + 3) % 7 == (DateOf(clock, i) + 3) % 7;
  }

  /**
   * Today's slots respect the lead time: each is at least the delay plus one
   * interval after the current time, none is before opening or after
   * closing, and they step by exactly one interval.
   */
  lemma TodayRespectsLeadTime(clock: Clock, cfg: Config)
    requires cfg.interval > 0
    requires !IsClosed(clock, cfg, 0)
    ensures var ts := SlotTimes(clock, cfg, 0);
      var open := TodayAt(clock, cfg.Opening(WeekdayOf(clock, 0)));
      var close := TodayAt(clock, cfg.Closing(WeekdayOf(clock, 0)));
      && close.Time?
      && (forall k :: 0 <= k < |ts| ==>
            && clock.now + SameDayDelay(cfg) + cfg.interval * MinuteSeconds <= ts[k]
            && (open.Time? ==> open.at <= ts[k])
            && ts[k] <= close.at)
      && (forall k :: 0 < k < |ts| ==> ts[k] == ts[k - 1] + cfg.interval * MinuteSeconds)
  {
    var w := WeekdayOf(clock, 0);
    ExpandBounds(DayStart(clock, cfg, 0), TodayAt(clock, cfg.Closing(w)), cfg.interval * MinuteSeconds);
  }

  /** When today's computed start falls after closing time, today emits
      nothing at all: neither a slot nor a sentinel. */
  lemma LateStartEmptiesToday(clock: Clock, cfg: Config)
    requires cfg.interval > 0
    requires !IsClosed(clock, cfg, 0)
    requires cfg.Closing(WeekdayOf(clock, 0)).At?
    requires PickupBegin(clock.now + SameDayDelay(cfg), cfg.interval)
      > Midnight(clock.now, clock.zone) + cfg.Closing(WeekdayOf(clock, 0)).minute * MinuteSeconds
    ensures DayEntries(clock, cfg, 0) == []
  {
  }

  /**
   * On a later open day with both hours set, the slots run from opening time
   * in steps of one interval up to the last one at or before closing time;
   * there is at least one exactly when opening is not after closing.
   */
  lemma LaterDaySpansOpeningHours(clock: Clock, cfg: Config, i: int)
    requires cfg.interval > 0
    requires i != 0
    requires !IsClosed(clock, cfg, i)
    requires cfg.Opening(WeekdayOf(clock, i)).At? && cfg.Closing(WeekdayOf(clock, i)).At?
    ensures var ts := SlotTimes(clock, cfg, i);
      var open := Midnight(clock.now, clock.zone) + cfg.Opening(WeekdayOf(clock, i)).minute * MinuteSeconds;
      var close := Midnight(clock.now, clock.zone) + cfg.Closing(WeekdayOf(clock, i)).minute * MinuteSeconds;
      |ts| > 0 <==> open <= close
    ensures var ts := SlotTimes(clock, cfg, i);
      var open := Midnight(clock.now, clock.zone) + cfg.Opening(WeekdayOf(clock, i)).minute * MinuteSeconds;
      forall k :: 0 <= k < |ts| ==> ts[k] == open + k * (cfg.interval * MinuteSeconds)
    ensures var ts := SlotTimes(clock, cfg, i);
      var close := Midnight(clock.now, clock.zone) + cfg.Closing(WeekdayOf(clock, i)).minute * MinuteSeconds;
      (forall k :: 0 <= k < |ts| ==> ts[k] <= close) && (|ts| > 0 ==> close < ts[|ts| - 1] + cfg.interval * MinuteSeconds)
  {
    var w := WeekdayOf(clock, i);
    var midnight := Midnight(clock.now, clock.zone);
    assert DayStart(clock, cfg, i) == Time(midnight + cfg.Opening(w).minute * MinuteSeconds);
    assert TodayAt(clock, cfg.Closing(w)) == Time(midnight + cfg.Closing(w).minute * MinuteSeconds);
    var ts := SlotTimes(clock, cfg, i);
    assert ts == Expand(DayStart(clock, cfg, i), TodayAt(clock, cfg.Closing(w)), cfg.interval * MinuteSeconds);
    ExpandBounds(DayStart(clock, cfg, i), TodayAt(clock, cfg.Closing(w)), cfg.interval * MinuteSeconds);
    ExpandIsProgression(DayStart(clock, cfg, i), TodayAt(clock, cfg.Closing(w)), cfg.interval * MinuteSeconds);
    assert forall k :: 0 <= k < |ts| ==> ts[k] == AsInt(DayStart(clock, cfg, i)) + k * (cfg.interval * MinuteSeconds);
  }

  /** Two slot times twelve hours apart get the same key on the same
      weekday: the key's hour is the 12-hour one. */
  lemma KeysRepeatHalfADayApart(zone: Zone, w: Weekday, i: int, t: int)
    ensures Render([t, t + HalfDaySeconds], i, w, zone)[0].key
         == Render([t, t + HalfDaySeconds], i, w, zone)[1].key
  {
    FaceForgetsMeridiem(t, zone);
  }
}
