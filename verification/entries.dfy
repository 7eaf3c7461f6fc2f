/**
 * The entries the generator emits: one per pickup slot, plus one sentinel
 * (an entry with an empty key) per closed day.
 */
module Entries {
  import opened LocalClock

  /** `{Weekday}_h_i e`: the weekday, the 12-hour face and the zone name. */
  datatype SlotKey = SlotKey(weekday: Weekday, face: ClockFace, zone: string)

  /** The day part of a label: "Today" on day 0, else the weekday name. */
  datatype DayLabel = Today | OnDay(weekday: Weekday)

  /** `{Today|Weekday} g:i`. */
  datatype SlotLabel = SlotLabel(day: DayLabel, face: ClockFace)

  /** The three explanations a closed day can carry:
      "Pickup unavailable today", "Pickup unavailable on {Weekday}s" and
      "Pickup unavailable on {Weekday}". */
  datatype Reason = UnavailableToday | UnavailableEvery(weekday: Weekday) | UnavailableOn(weekday: Weekday)

  /** A one-pair array of the generator: a slot, or a sentinel whose key is empty. */
  datatype Entry = Slot(key: SlotKey, display: SlotLabel) | Closed(reason: Reason)
}
