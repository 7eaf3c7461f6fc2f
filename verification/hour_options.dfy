/**
 * `create_hour_options`: the day loop over the window, then the partition.
 * `Generate` is the reference definition; `CreateHourOptions` follows the
 * source's loops step by step and is proved to compute the same result.
 */
module HourOptions {
  import opened Wrappers
  import opened LocalClock
  import opened Settings
  import opened PhpValues
  import opened Entries
  import opened DayPlan
  import opened Options

  /** The entries of days `lo` up to but excluding `hi`, day after day. */
  function Window(clock: Clock, cfg: Config, lo: int, hi: int): seq<Entry>
    requires cfg.interval > 0
    decreases hi - lo
  {
    if lo >= hi then [] else DayEntries(clock, cfg, lo) + Window(clock, cfg, lo + 1, hi)
  }

  /** Every entry the day loop emits. */
  function AllEntries(clock: Clock, cfg: Config): seq<Entry>
    requires cfg.interval > 0
  {
    Window(clock, cfg, EffectiveDelayDays(cfg.delayDays, cfg.daysAhead), cfg.daysAhead)
  }

  function Generate(clock: Clock, cfg: Config): SlotResult
    requires cfg.interval > 0
  {
    Partition(AllEntries(clock, cfg))
  }

  /** The window is the window up to `mid` followed by the rest. */
  lemma {:induction false} WindowSplit(clock: Clock, cfg: Config, lo: int, mid: int, hi: int)
    requires cfg.interval > 0
    requires lo <= mid <= hi
    ensures Window(clock, cfg, lo, hi) == Window(clock, cfg, lo, mid) + Window(clock, cfg, mid, hi)
    decreases mid - lo
  {
    if lo < mid {
      WindowSplit(clock, cfg, lo + 1, mid, hi);
      var d := DayEntries(clock, cfg, lo);
      var a := Window(clock, cfg, lo + 1, mid);
      var b := Window(clock, cfg, mid, hi);
      assert Window(clock, cfg, lo, hi) == d + (a + b);
      assert Window(clock, cfg, lo, mid) == d + a;
      AppendAssoc(d, a, b);
    } else {
      assert Window(clock, cfg, lo, mid) == [];
    }
  }

  lemma AppendAssoc(d: seq<Entry>, a: seq<Entry>, b: seq<Entry>)
    ensures d + (a + b) == (d + a) + b
  {
  }

  /** The middle of three joined blocks is the middle block. */
  lemma MiddleBlock(a: seq<Entry>, d: seq<Entry>, b: seq<Entry>)
    ensures (a + d + b)[|a|..|a| + |d|] == d
  {
  }

  /** Each day of the window contributes its entries as one contiguous block,
      after the blocks of all earlier days and before those of later days. */
  lemma DayIsContiguousBlock(clock: Clock, cfg: Config, lo: int, i: int, hi: int)
    requires cfg.interval > 0
    requires lo <= i < hi
    ensures var before := |Window(clock, cfg, lo, i)|;
      && before + |DayEntries(clock, cfg, i)| <= |Window(clock, cfg, lo, hi)|
      && Window(clock, cfg, lo, hi)[before..before + |DayEntries(clock, cfg, i)|] == DayEntries(clock, cfg, i)
  {
    WindowSplit(clock, cfg, lo, i, hi);
    WindowSplit(clock, cfg, i, i + 1, hi);
    var a := Window(clock, cfg, lo, i);
    var d := DayEntries(clock, cfg, i);
    var b := Window(clock, cfg, i + 1, hi);
    assert Window(clock, cfg, i, i + 1) == d + [];
    assert Window(clock, cfg, lo, hi) == a + (d + [] + b);
    assert d + [] == d;
    AppendAssoc(a, d, b);
    MiddleBlock(a, d, b);
  }

  /** The reason of each closed day of `lo` up to `hi`, in day order. */
  function ClosedDays(clock: Clock, cfg: Config, lo: int, hi: int): seq<Reason>
    decreases hi - lo
  {
    if lo >= hi then []
    else (if IsClosed(clock, cfg, lo) then [ClosedReason(clock, cfg, lo)] else []) + ClosedDays(clock, cfg, lo + 1, hi)
  }

  /** An open day emits only slots. */
  lemma OpenDayEmitsSlots(clock: Clock, cfg: Config, i: int)
    requires cfg.interval > 0
    requires !IsClosed(clock, cfg, i)
    ensures forall m :: 0 <= m < |DayEntries(clock, cfg, i)| ==> DayEntries(clock, cfg, i)[m].Slot?
  {
  }

  /** A day's reasons: its sentinel's when closed, none when open. */
  lemma DayReasons(clock: Clock, cfg: Config, i: int)
    requires cfg.interval > 0
    ensures ClosedLabels(DayEntries(clock, cfg, i))
         == if IsClosed(clock, cfg, i) then [ClosedReason(clock, cfg, i)] else []
  {
    var d := DayEntries(clock, cfg, i);
    if IsClosed(clock, cfg, i) {
      assert d[..|d| - 1] == [];
    } else {
      OpenDayEmitsSlots(clock, cfg, i);
      ClosedLabelsOfSlots(d);
    }
  }

  /** The closed reasons are one per closed day of the window, in day order. */
  lemma {:induction false} ReasonsAreClosedDays(clock: Clock, cfg: Config, lo: int, hi: int)
    requires cfg.interval > 0
    ensures ClosedLabels(Window(clock, cfg, lo, hi)) == ClosedDays(clock, cfg, lo, hi)
    decreases hi - lo
  {
    if lo < hi {
      ReasonsAreClosedDays(clock, cfg, lo + 1, hi);
      ClosedLabelsAppend(DayEntries(clock, cfg, lo), Window(clock, cfg, lo + 1, hi));
      DayReasons(clock, cfg, lo);
    }
  }

  /** The generator's closed reasons list the closed days of the window. */
  lemma GeneratedReasons(clock: Clock, cfg: Config)
    requires cfg.interval > 0
    ensures Generate(clock, cfg).closedReasons
      == ClosedDays(clock, cfg, EffectiveDelayDays(cfg.delayDays, cfg.daysAhead), cfg.daysAhead)
  {
    ReasonsAreClosedDays(clock, cfg, EffectiveDelayDays(cfg.delayDays, cfg.daysAhead), cfg.daysAhead);
  }

  /** Day `i` offers at least one slot. */
  predicate OffersSlots(clock: Clock, cfg: Config, i: int)
    requires cfg.interval > 0
  {
    !IsClosed(clock, cfg, i) && SlotTimes(clock, cfg, i) != []
  }

  predicate AllSentinels(es: seq<Entry>) {
    forall m :: 0 <= m < |es| ==> es[m].Closed?
  }

  lemma AllSentinelsAppend(a: seq<Entry>, b: seq<Entry>)
    ensures AllSentinels(a + b) <==> AllSentinels(a) && AllSentinels(b)
  {
    if AllSentinels(a) && AllSentinels(b) {
      forall m | 0 <= m < |a + b| ensures (a + b)[m].Closed? {
        if m >= |a| { assert (a + b)[m] == b[m - |a|]; }
      }
    }
    if AllSentinels(a + b) {
      forall m | 0 <= m < |a| ensures a[m].Closed? {
        assert (a + b)[m] == a[m];
      }
      forall m | 0 <= m < |b| ensures b[m].Closed? {
        assert (a + b)[|a| + m] == b[m];
      }
    }
  }

  /** A day's entries are all sentinels exactly when it offers no slot. */
  lemma DayAllSentinels(clock: Clock, cfg: Config, i: int)
    requires cfg.interval > 0
    ensures AllSentinels(DayEntries(clock, cfg, i)) <==> !OffersSlots(clock, cfg, i)
  {
    if OffersSlots(clock, cfg, i) {
      assert DayEntries(clock, cfg, i)[0].Slot?;
    }
  }

  /** Every entry of the window is a sentinel exactly when no day of it offers a slot. */
  lemma {:induction false} WindowAllClosed(clock: Clock, cfg: Config, lo: int, hi: int)
    requires cfg.interval > 0
    ensures AllSentinels(Window(clock, cfg, lo, hi)) <==> (forall i :: lo <= i < hi ==> !OffersSlots(clock, cfg, i))
    decreases hi - lo
  {
    if lo < hi {
      WindowAllClosed(clock, cfg, lo + 1, hi);
      AllSentinelsAppend(DayEntries(clock, cfg, lo), Window(clock, cfg, lo + 1, hi));
      DayAllSentinels(clock, cfg, lo);
      if forall i :: lo + 1 <= i < hi ==> !OffersSlots(clock, cfg, i) {
        if !OffersSlots(clock, cfg, lo) {
          assert forall i :: lo <= i < hi ==> !OffersSlots(clock, cfg, i);
        }
      }
    }
  }

  /**
   * The order review is suppressed, and the options are the single
   * "No available pickup times" placeholder, exactly when no day of the
   * window offers a slot.
   */
  lemma SuppressIffNoDayOffers(clock: Clock, cfg: Config)
    requires cfg.interval > 0
    ensures var lo := EffectiveDelayDays(cfg.delayDays, cfg.daysAhead);
      && (Generate(clock, cfg).suppressReview <==> forall i :: lo <= i < cfg.daysAhead ==> !OffersSlots(clock, cfg, i))
      && (Generate(clock, cfg).suppressReview ==> Generate(clock, cfg).options == [NoAvailablePickupTimes])
  {
    WindowAllClosed(clock, cfg, EffectiveDelayDays(cfg.delayDays, cfg.daysAhead), cfg.daysAhead);
  }

  /**
   * When the review is kept, the options are the slot keys of the whole
   * window, each once, in the order they were first generated, and each
   * carries the label of the last slot generated with its key.
   */
  lemma GeneratedOptions(clock: Clock, cfg: Config)
    requires cfg.interval > 0
    ensures var es := AllEntries(clock, cfg);
      var r := Generate(clock, cfg);
      !r.suppressReview ==>
        && |r.options| == |Dedup(SlotKeys(es))|
        && forall j :: 0 <= j < |r.options| ==>
             && r.options[j].Pickup?
             && r.options[j].key == Dedup(SlotKeys(es))[j]
             && LastLabel(es, r.options[j].key) == Some(r.options[j].display)
  {
    var es := AllEntries(clock, cfg);
    FlattenIsLastWriterMap(es);
    var m := Flatten(es);
    assert forall j :: 0 <= j < |m| ==> KeysOf(m)[j] == m[j].0;
  }

  /** A later day of the window that is not closed and whose opening is not
      after its closing offers a slot, so the review is not suppressed. */
  lemma OpenLaterDayOffers(clock: Clock, cfg: Config, i: int)
    requires cfg.interval > 0
    requires EffectiveDelayDays(cfg.delayDays, cfg.daysAhead) <= i < cfg.daysAhead
    requires i != 0
    requires !IsClosed(clock, cfg, i)
    requires cfg.Opening(WeekdayOf(clock, i)).At? && cfg.Closing(WeekdayOf(clock, i)).At?
    requires cfg.Opening(WeekdayOf(clock, i)).minute <= cfg.Closing(WeekdayOf(clock, i)).minute
    ensures !Generate(clock, cfg).suppressReview
    ensures forall j :: 0 <= j < |Generate(clock, cfg).options| ==> Generate(clock, cfg).options[j].Pickup?
  {
    LaterDaySpansOpeningHours(clock, cfg, i);
    assert OffersSlots(clock, cfg, i);
    SuppressIffNoDayOffers(clock, cfg);
  }

  /** One turn of the slot loop appends the rendering of its time. */
  lemma RenderCons(t: int, ts: seq<int>, i: int, w: Weekday, zone: Zone)
    ensures Render([t] + ts, i, w, zone) == [SlotEntry(t, i, w, zone)] + Render(ts, i, w, zone)
  {
  }

  /** A turn of the slot loop keeps the emitted entries a prefix of the
      day's rendering. */
  lemma SlotLoopStep(entries: seq<Entry>, tNow: Stamp, tEnd: Stamp, step: int, i: int, w: Weekday, zone: Zone)
    requires step > 0
    requires tNow.NotATime? ==> tEnd.Time?
    requires LooseLe(tNow, tEnd)
    ensures entries + Render(Expand(tNow, tEnd, step), i, w, zone)
         == entries + [SlotEntry(AsInt(tNow), i, w, zone)] + Render(Expand(Time(AsInt(tNow) + step), tEnd, step), i, w, zone)
    ensures Budget(Time(AsInt(tNow) + step), tEnd) < Budget(tNow, tEnd)
  {
    ExpandStep(tNow, tEnd, step);
    RenderCons(AsInt(tNow), Expand(Time(AsInt(tNow) + step), tEnd, step), i, w, zone);
  }

  /** The slot loop: one entry per time from `start` on, one interval
      apart, while the time compares at or before `tEnd`. */
  method SlotLoop(start: Stamp, tEnd: Stamp, step: int, i: int, w: Weekday, zone: Zone) returns (entries: seq<Entry>)
    requires step > 0
    requires start.NotATime? ==> tEnd.Time?
    ensures entries == Render(Expand(start, tEnd, step), i, w, zone)
  {
    var tNow := start;
    entries := [];
    ghost var all := Render(Expand(start, tEnd, step), i, w, zone);
    while LooseLe(tNow, tEnd)
      invariant tNow.NotATime? ==> tEnd.Time?
      invariant entries + Render(Expand(tNow, tEnd, step), i, w, zone) == all
      decreases Budget(tNow, tEnd)
    {
      var t := AsInt(tNow);
      SlotLoopStep(entries, tNow, tEnd, step, i, w, zone);
      entries := entries + [SlotEntry(t, i, w, zone)];
      tNow := Time(t + step);
    }
  }

  /** One turn of the day loop: the sentinel of a closed day, or the slot
      loop of an open one. Day 0 starts at the corrected start of
      `DayPlan.DayStart`, not at the one lines 340 and 343 compute (see
      `Findings.DayStartAsWritten`). */
  method DayOptions(clock: Clock, cfg: Config, i: int) returns (entries: seq<Entry>)
    requires cfg.interval > 0
    ensures entries == DayEntries(clock, cfg, i)
  {
    var step := cfg.interval * MinuteSeconds;
    var w := WeekdayOf(clock, i);
    var open := cfg.Opening(w);
    var close := cfg.Closing(w);
    var tEnd := TodayAt(clock, close);
    if DateOf(clock, i) in cfg.closures || (i == 0 && LooseLe(tEnd, Time(clock.now))) || ClosedEveryWeek(open, close) {
      var reason := if i == 0 then UnavailableToday
        else if ClosedEveryWeek(open, close) then UnavailableEvery(w)
        else UnavailableOn(w);
      return [Closed(reason)];
    }
    var start := TodayAt(clock, open);
    if i == 0 {
      var begin := CeilDiv(clock.now + SameDayDelay(cfg), step) * step + step;
      start := if !LooseLe(start, Time(begin)) then start else Time(begin);
    }
    assert start == DayStart(clock, cfg, i);
    entries := SlotLoop(start, tEnd, step, i, w, clock.zone);
  }

  /** The `foreach` pass: the options map, the closed reasons and the
      all-closed flag, then the placeholder when everything was closed. */
  method PartitionEntries(pickup: seq<Entry>) returns (r: SlotResult)
    ensures r == Partition(pickup)
  {
    var flattened: OrderedMap := [];
    var allClosed := true;
    var closedDays: seq<Reason> := [];
    var k := 0;
    while k < |pickup|
      invariant 0 <= k <= |pickup|
      invariant flattened == Flatten(pickup[..k])
      invariant closedDays == ClosedLabels(pickup[..k])
      invariant allClosed <==> SlotKeys(pickup[..k]) == []
    {
      var e := pickup[k];
      assert pickup[..k + 1][..k] == pickup[..k];
      if e.Slot? {
        allClosed := false;
        flattened := Put(flattened, e.key, e.display);
      } else {
        closedDays := closedDays + [e.reason];
      }
      k := k + 1;
    }
    assert pickup[..k] == pickup;
    if allClosed {
      r := SlotResult([NoAvailablePickupTimes], closedDays, true);
    } else {
      r := SlotResult(ToChoices(flattened), closedDays, false);
    }
  }

  /** The window grows by one day's entries at a time. */
  lemma WindowStep(clock: Clock, cfg: Config, lo: int, i: int, pickup: seq<Entry>, day: seq<Entry>)
    requires cfg.interval > 0
    requires lo <= i
    requires pickup == Window(clock, cfg, lo, i)
    requires day == DayEntries(clock, cfg, i)
    ensures pickup + day == Window(clock, cfg, lo, i + 1)
  {
    WindowSplit(clock, cfg, lo, i, i + 1);
    assert Window(clock, cfg, i, i + 1) == DayEntries(clock, cfg, i) + Window(clock, cfg, i + 1, i + 1);
  }

  /** When the day loop stops, it has emitted every entry of the window. */
  lemma LoopExit(clock: Clock, cfg: Config, lo: int, i: int)
    requires cfg.interval > 0
    requires lo == EffectiveDelayDays(cfg.delayDays, cfg.daysAhead)
    requires lo <= i && i >= cfg.daysAhead
    requires i <= cfg.daysAhead || i == lo
    ensures Window(clock, cfg, lo, i) == AllEntries(clock, cfg)
  {
    if i != cfg.daysAhead {
      assert Window(clock, cfg, lo, cfg.daysAhead) == [];
    }
  }

  /** The source's day loop from the effective delay days, then the partition. */
  method CreateHourOptions(clock: Clock, cfg: Config) returns (r: SlotResult)
    requires cfg.interval > 0
    ensures r == Generate(clock, cfg)
  {
    var delayDays := if cfg.delayDays >= cfg.daysAhead then 0 else cfg.delayDays;
    var pickup: seq<Entry> := [];
    var i := delayDays;
    while i < cfg.daysAhead
      invariant delayDays <= i
      invariant i <= cfg.daysAhead || i == delayDays
      invariant pickup == Window(clock, cfg, delayDays, i)
      decreases cfg.daysAhead - i
    {
      var day := DayOptions(clock, cfg, i);
      WindowStep(clock, cfg, delayDays, i, pickup, day);
      pickup := pickup + day;
      i := i + 1;
    }
    LoopExit(clock, cfg, delayDays, i);
    r := PartitionEntries(pickup);
  }
}
