/** Aligning a publication time to trading days: the next trading day and the return window. */
module Alignment {
  import opened Prelude

  predicate IsTradingDay(day: int, holidays: set<int>) {
    Weekday(day) < 5 && day !in holidays
  }

  /** Holidays not yet behind us: each one can delay the search once. */
  ghost function HolidaysFrom(day: int, holidays: set<int>): set<int> {
    set h | h in holidays && h >= day
  }

  ghost function DaysToWeekday(day: int): nat {
    if Weekday(day) < 5 then 0 else 7 - Weekday(day)
  }

  lemma HolidayPassed(day: int, holidays: set<int>)
    ensures HolidaysFrom(day + 1, holidays) <= HolidaysFrom(day, holidays)
    ensures |HolidaysFrom(day + 1, holidays)| <= |HolidaysFrom(day, holidays)|
    ensures day in holidays ==> |HolidaysFrom(day + 1, holidays)| < |HolidaysFrom(day, holidays)|
  {
    var now, later := HolidaysFrom(day, holidays), HolidaysFrom(day + 1, holidays);
    assert later == now - {day};
  }

  /** The least trading day strictly after a date. */
  ghost predicate IsNextTradingDay(n: int, day: int, holidays: set<int>) {
    n > day && IsTradingDay(n, holidays) && forall m :: day < m < n ==> !IsTradingDay(m, holidays)
  }

  function SearchFrom(n: int, holidays: set<int>): (r: int)
    ensures r >= n && IsTradingDay(r, holidays) && forall m :: n <= m < r ==> !IsTradingDay(m, holidays)
    decreases |HolidaysFrom(n, holidays)|, DaysToWeekday(n)
  {
    if IsTradingDay(n, holidays) then n
    else
      HolidayPassed(n, holidays);
      SearchFrom(n + 1, holidays)
  }

  function NextTradingDay(day: int, holidays: set<int>): (n: int)
    ensures IsNextTradingDay(n, day, holidays)
  {
    SearchFrom(day + 1, holidays)
  }

  lemma NextTradingDayUnique(a: int, b: int, day: int, holidays: set<int>)
    requires IsNextTradingDay(a, day, holidays) && IsNextTradingDay(b, day, holidays)
    ensures a == b
  {
  }

  /** Walking forward terminates for every finite set of holidays, however long the run of closed days. */
  method FindNextTradingDay(day: int, holidays: set<int>) returns (n: int)
    ensures IsNextTradingDay(n, day, holidays) && n == NextTradingDay(day, holidays)
  {
    n := day + 1;
    while !IsTradingDay(n, holidays)
      invariant n > day && forall m :: day < m < n ==> !IsTradingDay(m, holidays)
      decreases |HolidaysFrom(n, holidays)|, DaysToWeekday(n)
    {
      HolidayPassed(n, holidays);
      n := n + 1;
    }
    NextTradingDayUnique(n, NextTradingDay(day, holidays), day, holidays);
  }

  lemma NextTradingDayMonotone(d: int, e: int, holidays: set<int>)
    requires d <= e
    ensures NextTradingDay(d, holidays) <= NextTradingDay(e, holidays)
  {
    var n := NextTradingDay(e, holidays);
    assert IsTradingDay(n, holidays) && n > d;
  }

  // ---------------------------------------------------------------- the return window

  datatype PriceField = Close | Open

  datatype ReturnWindow = ReturnWindow(entryDate: int, entryField: PriceField, exitDate: int, exitField: PriceField)

  function WindowOf(published: Instant, holidays: set<int>): ReturnWindow {
    var d := DayOf(published);
    if IsTradingDay(d, holidays) && TimeOfDay(published) < MARKET_CLOSE then
      ReturnWindow(d, Close, NextTradingDay(d, holidays), Close)
    else
      var t1 := NextTradingDay(d, holidays);
      ReturnWindow(t1, Open, NextTradingDay(t1, holidays), Open)
  }

  /** The moment a price is made: the close at 15:30, the open at any earlier time the market chooses. */
  function MomentOf(date: int, field: PriceField, openTime: int): Instant {
    date * MICROS_PER_DAY + (if field.Close? then MARKET_CLOSE else openTime)
  }

  function EntryMoment(w: ReturnWindow, openTime: int): Instant {
    MomentOf(w.entryDate, w.entryField, openTime)
  }

  function ExitMoment(w: ReturnWindow, openTime: int): Instant {
    MomentOf(w.exitDate, w.exitField, openTime)
  }

  lemma InstantParts(t: Instant)
    ensures t == DayOf(t) * MICROS_PER_DAY + TimeOfDay(t) && 0 <= TimeOfDay(t) < MICROS_PER_DAY
  {
  }

  lemma EarlierDay(t: Instant, u: Instant)
    requires t <= u
    ensures DayOf(t) <= DayOf(u) && (DayOf(t) == DayOf(u) ==> TimeOfDay(t) <= TimeOfDay(u))
  {
    InstantParts(t);
    InstantParts(u);
  }

  /**
   * No look-back: entry is after publication, both ends are trading days, and the exit is the next
   * trading day after the entry at the same price field.
   */
  lemma WindowIsForward(published: Instant, holidays: set<int>, openTime: int)
    requires 0 <= openTime < MARKET_CLOSE
    ensures var w := WindowOf(published, holidays);
      published < EntryMoment(w, openTime)
      && IsTradingDay(w.entryDate, holidays)
      && IsNextTradingDay(w.exitDate, w.entryDate, holidays)
      && w.entryField == w.exitField
      && EntryMoment(w, openTime) < ExitMoment(w, openTime)
  {
    InstantParts(published);
  }

  /** Later news never enters or leaves earlier. */
  lemma WindowMonotone(p: Instant, q: Instant, holidays: set<int>, openTime: int)
    requires p <= q && 0 <= openTime < MARKET_CLOSE
    ensures var v, w := WindowOf(p, holidays), WindowOf(q, holidays);
      EntryMoment(v, openTime) <= EntryMoment(w, openTime)
      && ExitMoment(v, openTime) <= ExitMoment(w, openTime)
  {
    EarlierDay(p, q);
    var v, w := WindowOf(p, holidays), WindowOf(q, holidays);
    EntryOrdered(p, q, holidays);
    NextTradingDayMonotone(v.entryDate, w.entryDate, holidays);
    if v.entryDate < w.entryDate {
      ExitLater(v.entryDate, w.entryDate, holidays);
    }
  }

  /** Entries are ordered by date, and on the same date an open never follows a close. */
  lemma EntryOrdered(p: Instant, q: Instant, holidays: set<int>)
    requires p <= q
    ensures var v, w := WindowOf(p, holidays), WindowOf(q, holidays);
      v.entryDate < w.entryDate || (v.entryDate == w.entryDate && (v.entryField.Close? ==> w.entryField.Close?))
  {
    EarlierDay(p, q);
    var d, e := DayOf(p), DayOf(q);
    NextTradingDayMonotone(d, e, holidays);
    var v, w := WindowOf(p, holidays), WindowOf(q, holidays);
    assert v.entryField.Close? ==> v.entryDate == d;
    assert w.entryField.Open? ==> w.entryDate > e;
  }

  lemma ExitLater(d: int, e: int, holidays: set<int>)
    requires d < e && IsTradingDay(d, holidays) && IsTradingDay(e, holidays)
    ensures NextTradingDay(d, holidays) < NextTradingDay(e, holidays)
  {
    assert NextTradingDay(d, holidays) <= e;
  }

  /**
   * The entry is the earliest price that is still to come: no close after publication, and no open on a later date, of
   * any trading day is before it.  The open of the publication date itself is never used.
   */
  lemma {:induction false} EntryIsEarliest(published: Instant, holidays: set<int>, openTime: int, day: int)
    requires 0 <= openTime < MARKET_CLOSE && IsTradingDay(day, holidays)
    ensures var w := WindowOf(published, holidays);
      (published < MomentOf(day, Close, openTime) ==> EntryMoment(w, openTime) <= MomentOf(day, Close, openTime))
      && (DayOf(published) < day ==> EntryMoment(w, openTime) <= MomentOf(day, Open, openTime))
      && (w.entryField == Open ==> DayOf(published) < w.entryDate)
  {
    InstantParts(published);
    var d, w := DayOf(published), WindowOf(published, holidays);
    if d < day {
      assert NextTradingDay(d, holidays) <= day;
    }
  }

  /** Trading days are Mondays to Fridays that are no holidays; day 1, 0001-01-01, is a Monday, and the week has seven days. */
  lemma TradingDaysOfTheWeek(day: int, holidays: set<int>)
    ensures IsTradingDay(1 + 7 * day, holidays) <==> 1 + 7 * day !in holidays
    ensures IsTradingDay(5 + 7 * day, holidays) <==> 5 + 7 * day !in holidays
    ensures !IsTradingDay(6 + 7 * day, holidays) && !IsTradingDay(7 + 7 * day, holidays)
    ensures MARKET_CLOSE == (15 * 60 + 30) * 60 * 1_000_000 && MICROS_PER_DAY == 24 * 3600 * 1_000_000
  {
  }
}
