/**
 * The results of `strtotime` and how PHP 7 compares them.
 *
 * `strtotime('')` returns `false`. PHP 7's loose comparison of a boolean with
 * an integer converts both to booleans (0 is false, every other integer
 * true), and an integer parameter given `false` receives 0. The generator
 * relies on these rules whenever a stored time is blank.
 */
module PhpValues {
  import opened LocalClock
  import opened Settings

  /** A `strtotime` result: `false`, or a timestamp. */
  datatype Stamp = NotATime | Time(at: int)

  /** `strtotime` of a stored `H:MM` time: that clock time on today's date. */
  function StrToTime(s: TimeSetting, midnight: int): (r: Stamp)
    ensures r.NotATime? <==> s.Blank?
    ensures s.At? ==> r.at - midnight == s.minute * MinuteSeconds
  {
    match s
    case Blank => NotATime
    case At(m) => Time(midnight + m * MinuteSeconds)
  }

  predicate Truthy(a: Stamp) {
    a.Time? && a.at != 0
  }

  /** `$a <= $b` under PHP 7 loose comparison. */
  predicate LooseLe(a: Stamp, b: Stamp) {
    if a.Time? && b.Time? then a.at <= b.at else !Truthy(a) || Truthy(b)
  }

  /** The integer a stamp becomes when passed where PHP expects one. */
  function AsInt(a: Stamp): int {
    if a.Time? then a.at else 0
  }

  /** Loose `<=` is a total preorder, so `$a < $b` is `!($b <= $a)`, and
      `false` compares below every non-zero timestamp and equal to 0. */
  lemma LooseLeFacts(a: Stamp, b: Stamp)
    ensures LooseLe(a, b) || LooseLe(b, a)
    ensures LooseLe(NotATime, a)
    ensures a.Time? ==> (LooseLe(a, NotATime) <==> a.at == 0)
  {
  }
}
