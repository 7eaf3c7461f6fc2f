# Local Pickup Time: the pickup-slot generator

This project models `Local_Pickup_Time::create_hour_options`, the checkout helper of a WooCommerce plugin. It computes the pickup times a customer may choose from. It takes the current time, the store's zone and the plugin settings:

- an opening and a closing time per weekday;
- a list of closure dates;
- a delay in minutes, a slot interval, a number of delay days and a number of days ahead.

It returns three things:

- an ordered map from option keys (`{Weekday}_h_i e`) to labels (`Today 10:30`, `Friday 2:00`);
- the list of reasons of the closed days ("Pickup unavailable today", "… on Mondays", "… on Monday");
- a flag telling the caller to hide the order review when nothing can be picked up. The source removes the review action itself; the model returns the flag instead.

The modules follow the steps of the method:

- `LocalClock`: Unix seconds, a zone as a fixed UTC offset plus its name, local midnight, and the 12-hour clock face that `date('g:i')` and `date('h_i')` print.
- `Settings`: the stored options and the defaults `get_option` falls back to (10:00, 19:00, 60, 30, 0, 1).
- `PhpValues`: what `strtotime` of a stored `H:MM` time returns, and how PHP 7 compares and converts its `false` result.
- `Entries`: the one-pair arrays the day loop emits, either a slot or a sentinel with an empty key.
- `DayPlan`: one turn of the day loop. It covers the delay-days clamp, closed-day detection and the reason priority, the same-day start (round up to the interval, then add one more), and the slot loop.
- `Options`: the `foreach` pass that splits the entries into the options map and the closed reasons, with the "No available pickup times" fallback. Keys can repeat, so the map has PHP's assignment semantics: a repeated key keeps its first position and takes the last label.
- `HourOptions`: the reference definition `Generate` of the whole method. It also holds methods that follow the source's loops (`CreateHourOptions`, `DayOptions`, `SlotLoop`, `PartitionEntries`), each proved to compute the same result as `Generate`. On day 0 they use the corrected same-day start, not the one the source computes on lines 340 and 343 (see Findings).
- `Findings`: the same-day start as the source writes it, next to the corrected one that the rest of the model uses.
- `Scenarios`: concrete days under the default settings.

The source relies on PHP 7. It calls `each()`, which PHP 8 removed. The model therefore follows PHP 7's loose comparisons:

- `strtotime('')` is `false`, which compares below every non-zero timestamp and equal to 0.
- An integer parameter given `false` receives 0, so a blank opening time on a later day makes the slot loop start at the Unix epoch.
- A string compares with `0` by its leading number. A time such as `0:30` therefore counts as "zero" in the weekly-closure test.

`strtotime('H:MM')` always means today's date, also on a later day of the window. The model keeps this: every time of day is today's midnight plus the stored minutes.

## Model

| member | source | states |
|---|---|---|
| Settings.Load | public/class-local-pickup-time.php:280-283 | each numeric setting is its stored value when saved and its default (60, 30, 0, 1) when not; hours and closures pass through unchanged |
| PhpValues.StrToTime | public/class-local-pickup-time.php:310 | a stored time gives `false` exactly when it is blank; otherwise it gives the timestamp that many minutes after today's midnight |
| PhpValues.LooseLeFacts | public/class-local-pickup-time.php:313 | loose `<=` is total; `false` compares at or below everything, and a timestamp is at or below `false` only when it is 0 |
| LocalClock.Midnight | public/class-local-pickup-time.php:310 | the midnight that `strtotime` anchors a time of day to lies within the day before `t`, on the same calendar day, at second 0 of that day |
| LocalClock.Face | public/class-local-pickup-time.php:352-353 | the printed clock face has an hour from 1 to 12 and a minute from 0 to 59 |
| LocalClock.FaceAtMinute | public/class-local-pickup-time.php:353 | `minute` minutes after a local midnight the face shows that minute's 12-hour hour and its minute |
| LocalClock.FaceForgetsMeridiem | public/class-local-pickup-time.php:352-353 | two times twelve hours apart print the same face |
| DayPlan.EffectiveDelayDays | public/class-local-pickup-time.php:286 | the delay days become 0 when they are at least the days ahead, and are unchanged otherwise |
| DayPlan.CeilDiv | public/class-local-pickup-time.php:341 | `ceil(x / p)` is the least multiplier whose product with `p` reaches `x` |
| DayPlan.PickupBegin | public/class-local-pickup-time.php:339-341 | the same-day begin is a multiple of the interval and lies in `[x + I, x + 2I)`, where `x` is now plus the delay |
| DayPlan.SameDayStart | public/class-local-pickup-time.php:343 | the start is the opening time when the begin is before it, else the begin; so it is never before either |
| DayPlan.Expand | public/class-local-pickup-time.php:348-356 | the slot loop emits nothing exactly when the start compares after closing; otherwise it starts at the start |
| DayPlan.ExpandSteps | public/class-local-pickup-time.php:355 | consecutive slot times are exactly one interval apart |
| DayPlan.ExpandFrom | public/class-local-pickup-time.php:348-355 | no slot time is before the start |
| DayPlan.ExpandUpTo | public/class-local-pickup-time.php:350 | every slot time is at or before closing, so a slot exactly at closing is included |
| DayPlan.ExpandOvershoots | public/class-local-pickup-time.php:350-355 | one more interval after the last slot would pass closing |
| DayPlan.ExpandBounds | public/class-local-pickup-time.php:348-356 | the four facts above together |
| DayPlan.ExpandIsProgression | public/class-local-pickup-time.php:348-356 | slot `k` is the start plus `k` intervals |
| DayPlan.SentinelIffClosed | public/class-local-pickup-time.php:313-323 | a day emits a sentinel exactly when it is closed (listed closure, today past closing, or a weekly closure); a closed day emits only that sentinel |
| DayPlan.ReasonPriority | public/class-local-pickup-time.php:315-321 | "today" exactly on day 0; "on {Weekday}s" exactly on a later weekly-closed weekday; "on {Weekday}" otherwise, and then the date is a listed closure |
| DayPlan.PastClosingClosesToday | public/class-local-pickup-time.php:313-316 | at or after today's closing time, today emits exactly "Pickup unavailable today" |
| DayPlan.ListedClosureSentinel | public/class-local-pickup-time.php:313-320 | a listed later date emits exactly "Pickup unavailable on {Weekday}", whatever its hours, unless its weekday is closed every week |
| DayPlan.WeeklyClosureRepeats | public/class-local-pickup-time.php:313-318 | a weekday closed every week emits "Pickup unavailable on {Weekday}s", and the same again seven days later |
| DayPlan.TodayRespectsLeadTime | public/class-local-pickup-time.php:339-356 | every slot today is at least the delay plus one interval after now, not before opening, not after closing, and one interval after the previous one |
| DayPlan.LateStartEmptiesToday | public/class-local-pickup-time.php:348-350 | when today's start is after closing, today emits no entry at all, not even a sentinel |
| DayPlan.LaterDaySpansOpeningHours | public/class-local-pickup-time.php:327-356 | a later open day's slots run from opening in whole intervals up to the last at or before closing; there is one exactly when opening is not after closing |
| DayPlan.KeysRepeatHalfADayApart | public/class-local-pickup-time.php:352 | slots twelve hours apart on the same day get the same key |
| Options.PutFacts | public/class-local-pickup-time.php:369 | assigning a present key keeps its place and replaces its label; an absent key is appended; nothing else changes |
| Options.FlattenIsLastWriterMap | public/class-local-pickup-time.php:365-373 | the options list each slot key once, in order of first generation, with the label of the key's last slot |
| Options.FlattenEmptyIff | public/class-local-pickup-time.php:365-373 | the options map is empty exactly when every entry is a sentinel |
| Options.AllClosedIff | public/class-local-pickup-time.php:363-368 | `$allClosed` stays true exactly when no entry is a slot |
| Options.ClosedLabelsAppend | public/class-local-pickup-time.php:371 | the reasons of two runs of entries are the reasons of the first followed by those of the second |
| Options.Partition | public/class-local-pickup-time.php:362-379 | the reasons are the sentinels' reasons in order; the review is suppressed exactly when every entry is a sentinel, and then the options are the single placeholder; otherwise they are the flattened map of the slots, non-empty and all pickups |
| HourOptions.WindowSplit | public/class-local-pickup-time.php:300-359 | the entries of a run of days are those of its first part followed by those of the rest |
| HourOptions.DayIsContiguousBlock | public/class-local-pickup-time.php:300-359 | each day's entries appear as one contiguous block, after all earlier days' blocks |
| HourOptions.OpenDayEmitsSlots | public/class-local-pickup-time.php:348-356 | an open day emits only slots |
| HourOptions.DayReasons | public/class-local-pickup-time.php:313-323 | a day contributes its reason exactly when it is closed |
| HourOptions.ReasonsAreClosedDays | public/class-local-pickup-time.php:300-323 | the reasons of a window are one per closed day, in day order |
| HourOptions.GeneratedReasons | public/class-local-pickup-time.php:300-373 | the returned reasons are those of the closed days from the clamped delay days up to the days ahead |
| HourOptions.DayAllSentinels | public/class-local-pickup-time.php:313-356 | a day's entries are all sentinels exactly when the day offers no slot |
| HourOptions.WindowAllClosed | public/class-local-pickup-time.php:300-368 | every entry of a window is a sentinel exactly when no day of it offers a slot |
| HourOptions.SuppressIffNoDayOffers | public/class-local-pickup-time.php:374-379 | the review is suppressed, with the placeholder as the only option, exactly when no day of the window offers a slot |
| HourOptions.GeneratedOptions | public/class-local-pickup-time.php:300-379 | when the review is kept, the options are the window's slot keys, each once in order of first generation, each with the label of its key's last slot |
| HourOptions.OpenLaterDayOffers | public/class-local-pickup-time.php:327-379 | a later open day whose opening is not after its closing keeps the review and offers only pickups |
| HourOptions.RenderCons | public/class-local-pickup-time.php:351-354 | rendering one more time adds its entry in front of the rest |
| HourOptions.SlotLoopStep | public/class-local-pickup-time.php:350-355 | one turn of the slot loop keeps the emitted entries a prefix of the day's rendering and uses up budget |
| HourOptions.SlotLoop | public/class-local-pickup-time.php:348-356 | the `while` loop emits the rendering of exactly the slot times of `Expand` |
| HourOptions.DayOptions | public/class-local-pickup-time.php:302-356 | one turn of the day loop emits exactly the day's entries |
| HourOptions.PartitionEntries | public/class-local-pickup-time.php:362-379 | the `foreach` pass computes exactly `Partition` |
| HourOptions.WindowStep | public/class-local-pickup-time.php:300 | the window grows by one day's entries per turn |
| HourOptions.LoopExit | public/class-local-pickup-time.php:300 | when the day loop stops, every day of the window has been emitted, also when the loop never runs |
| HourOptions.CreateHourOptions | public/class-local-pickup-time.php:260-380 | the whole method computes `Generate` |
| Findings.ReparsedBegin | public/class-local-pickup-time.php:343-348 | `strtotime(date('g:i', b))` always lies between 1:00 and 12:59 today |
| Findings.ReparseKeepsOnlyOneToTwelve | public/class-local-pickup-time.php:343-348 | the round trip keeps a whole-minute begin of today exactly when it lies between 1:00 and 12:59 |
| Findings.UnsetDelayCounterexample | public/class-local-pickup-time.php:340 | at 9:20 with a 60-minute delay the written code starts at 10:00, less than the delay away; the corrected start is 11:00 |
| Findings.MeridiemCounterexample | public/class-local-pickup-time.php:343 | at 14:00 the written code starts at 2:30 in the night, before now and before opening; the corrected start is 14:30 |
| Scenarios.NothingSavedGivesDefaults | public/class-local-pickup-time.php:280-309 | a store that saved no option is open 10:00 to 19:00 every day, has no closures, a 60-minute delay, a 30-minute interval and a one-day window |
| Scenarios.MorningToday | public/class-local-pickup-time.php:339-348 | at 9:00 on a Thursday with the defaults, today is open and its first slot time is 10:30 |
| Scenarios.MorningFirstSlot | public/class-local-pickup-time.php:339-354 | at 9:00 the first entry is the slot keyed Thursday 10:30 and labelled "Today 10:30", and the review is kept |
| Scenarios.EveningToday | public/class-local-pickup-time.php:313-350 | at 18:45 today is open but its start, 20:30 (18:45 plus the delay is 19:45, rounded up to 20:00, plus one interval), is after closing, so it emits nothing |
| Scenarios.EveningLeavesOnlyPlaceholder | public/class-local-pickup-time.php:374-379 | so at 18:45 the only option is the placeholder, the review is suppressed and no reason is listed |
| Scenarios.HalfDayApartKeysMerge | public/class-local-pickup-time.php:352-369 | a 9:00 and a 21:00 slot merge into one option at the 9:00 position carrying the 21:00 label |

## Left out

- Zone resolution through `get_option('timezone_string')`, `timezone_name_from_abbr` and `date_default_timezone_set` (lines 262-272): the zone is an input, a fixed UTC offset plus the name `date('e')` prints.
- Daylight-saving transitions: a day is 86400 seconds and `strtotime("+N minutes")` adds N × 60 seconds.
- Reading the options with `get_option` and parsing the closings text area with `explode` and `trim` (lines 275-283, 308-309): the caller supplies the stored values. A closure is the calendar day whose `m/d/Y` text matches a line.
- Stored times other than `H:MM` clock times, and numeric settings that are not integers: `TimeSetting` holds a minute of the day or a blank.
- A delay-days setting stored as the string `"0"`: the model takes integers. With the string, `$i === 0` (line 351) fails on day 0, and the day-0 labels would show the weekday name instead of "Today".
- Lines 304 and 340 call `time()` again: the model uses one current time throughout the call.
- The business-day branch (lines 289, 330-336): its flag is the constant `false`, so it is never taken.
- WordPress plumbing (lines 46-238), text-domain loading (lines 245-253) and `__()` translation: labels are datatypes, and translation is the identity.
- `time_select`, `field_process`, `update_order_meta` and `update_order_email` (lines 387-432), and the `remove_action` call (line 377): these are side effects. The model returns `suppressReview` instead.
- The text of keys and labels: `SlotKey`, `SlotLabel` and `Reason` hold what the strings are built from, not the strings.
- CreateHourOptions: requires a positive interval, as do `Generate`, `DayEntries` and every lemma about them. With an interval of 0, line 341 divides by zero when day 0 is open. With 0 or a negative interval, the slot loop of lines 350-356 never ends on an open day whose start compares at or before closing, because the time never passes closing. A window whose days are all closed ends with any interval.

## Findings

| source | as written | input that shows it | evidently intended | confidence | as-written member | corrected member |
|---|---|---|---|---|---|---|
| public/class-local-pickup-time.php:340 | `time() + $delay` adds `$delay`, a variable the method never assigns, so the same-day lead time is 0 | now 9:20, delay 60 minutes, interval 30: the first slot is 10:00, only 40 minutes ahead | add `$delay_minutes * 60`, read on line 280; the first slot is then 11:00 | not executed | Findings.UnsetDelayCounterexample | DayPlan.TodayRespectsLeadTime |
| public/class-local-pickup-time.php:343 | the begin is rendered with `date('g:i')`, which has no AM/PM, and line 348 reads it back as a 24-hour time today | now 14:00, delay 0, interval 30, opening 10:00: the begin 14:30 becomes "2:30", the first slot is 2:30 in the night, before now and before opening, and the loop floods from there to closing | keep the 24-hour begin, so the first slot is 14:30 | not executed | Findings.MeridiemCounterexample | DayPlan.TodayRespectsLeadTime |
