/** Small shared vocabulary: optional values, exact money arithmetic and the KST time line. */
module Prelude {

  datatype Option<+T> = None | Some(value: T) {
    function GetOr(default: T): T {
      if Some? then value else default
    }
  }

  /** A stock code.  Codes are only compared and sorted; see `Symbols.RankOrdersCodes`. */
  type Symbol = int

  function Min(a: real, b: real): real {
    if a <= b then a else b
  }

  function Max(a: real, b: real): real {
    if a >= b then a else b
  }

  /** Look up a quantity with Python's `dict.get(key, 0)`. */
  function Lookup(m: map<Symbol, real>, s: Symbol): real {
    if s in m then m[s] else 0.0
  }

  /** Microseconds on the KST time line (a fixed +09:00 offset, so no daylight saving jumps). */
  type Instant = int

  const MICROS_PER_DAY := 86_400_000_000

  /** The regular close, 15:30, as a time of day. */
  const MARKET_CLOSE := 55_800_000_000

  /** The KST calendar date of an instant, as a proleptic ordinal (day 1 is Monday 0001-01-01). */
  function DayOf(t: Instant): int {
    t / MICROS_PER_DAY
  }

  function TimeOfDay(t: Instant): int {
    t % MICROS_PER_DAY
  }

  function Weekday(day: int): int {
    (day + 6) % 7
  }

  ghost function Pick<T>(s: set<T>): (x: T)
    requires s != {}
    ensures x in s
  {
    var x :| x in s;
    x
  }

  /** Some key of a nonempty set of keys. */
  ghost function PickKey(s: set<int>): (x: int)
    requires s != {}
    ensures x in s
  {
    Pick(s)
  }
}
