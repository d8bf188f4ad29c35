/** The loss circuit breaker: a latch with hysteresis on drawdown and a one-day halt on daily loss. */
module Breaker {
  import opened Prelude
  import opened Drawdown

  datatype BreakerConfig = BreakerConfig(dailyLossLimit: real, maxDrawdownLimit: real, rearmDrawdown: real)

  /** The breaker's memory; also exactly what is persisted and restored. */
  datatype BreakerState = BreakerState(
    highWaterMark: Option<real>, drawdown: real, dailyHaltDate: Option<int>, drawdownHalt: bool, today: Option<int>)
  {
    predicate DailyHaltActive() {
      dailyHaltDate.Some? && dailyHaltDate == today
    }

    predicate Tripped() {
      drawdownHalt || DailyHaltActive()
    }
  }

  const FRESH := BreakerState(None, 0.0, None, false, None)

  function AssessSpec(cfg: BreakerConfig, b: BreakerState, equity: Option<real>, rate: Option<real>, day: int): BreakerState {
    var known := equity.Some? && equity.value > 0.0;
    var hwm := if known && (b.highWaterMark.None? || equity.value > b.highWaterMark.value)
               then equity else b.highWaterMark;
    var dd := if known && hwm.Some? && hwm.value > 0.0
              then Max(0.0, (hwm.value - equity.value) / hwm.value) else b.drawdown;
    var halt := if equity.Some? && hwm.Some? && hwm.value != 0.0 then
                  if dd >= cfg.maxDrawdownLimit then true
                  else if b.drawdownHalt && dd <= cfg.rearmDrawdown then false
                  else b.drawdownHalt
                else b.drawdownHalt;
    var daily := if rate.Some? && rate.value <= -cfg.dailyLossLimit then Some(day) else b.dailyHaltDate;
    BreakerState(hwm, dd, daily, halt, Some(day))
  }

  function ResetSpec(b: BreakerState): BreakerState {
    BreakerState(None, 0.0, None, false, b.today)
  }

  class CircuitBreaker {
    const config: BreakerConfig
    var highWaterMark: Option<real>
    var drawdown: real
    var dailyHaltDate: Option<int>
    var drawdownHalt: bool
    var today: Option<int>

    ghost function State(): BreakerState
      reads this
    {
      BreakerState(highWaterMark, drawdown, dailyHaltDate, drawdownHalt, today)
    }

    constructor (config: BreakerConfig)
      ensures this.config == config && State() == FRESH
    {
      this.config := config;
      highWaterMark, drawdown, dailyHaltDate, drawdownHalt, today := None, 0.0, None, false, None;
    }

    predicate Tripped()
      reads this
      ensures Tripped() == State().Tripped()
    {
      drawdownHalt || (dailyHaltDate.Some? && dailyHaltDate == today)
    }

    method Assess(equity: Option<real>, dailyPlRate: Option<real>, day: int) returns (tripped: bool)
      modifies this
      ensures State() == AssessSpec(config, old(State()), equity, dailyPlRate, day)
      ensures tripped <==> State().drawdownHalt || State().dailyHaltDate == Some(day)
    {
      today := Some(day);
      if equity.Some? && equity.value > 0.0 {
        if highWaterMark.None? || equity.value > highWaterMark.value {
          highWaterMark := equity;
        }
        if highWaterMark.value > 0.0 {
          drawdown := Max(0.0, (highWaterMark.value - equity.value) / highWaterMark.value);
        }
      }
      if equity.Some? && highWaterMark.Some? && highWaterMark.value != 0.0 {
        if drawdown >= config.maxDrawdownLimit {
          drawdownHalt := true;
        } else if drawdownHalt && drawdown <= config.rearmDrawdown {
          drawdownHalt := false;
        }
      }
      if dailyPlRate.Some? && dailyPlRate.value <= -config.dailyLossLimit {
        dailyHaltDate := Some(day);
      }
      tripped := Tripped();
    }

    method Reset()
      modifies this
      ensures State() == ResetSpec(old(State()))
    {
      highWaterMark := None;
      drawdown := 0.0;
      drawdownHalt := false;
      dailyHaltDate := None;
    }

    method DumpState() returns (saved: BreakerState)
      ensures saved == State()
    {
      saved := BreakerState(highWaterMark, drawdown, dailyHaltDate, drawdownHalt, today);
    }

    method RestoreState(saved: BreakerState)
      modifies this
      ensures State() == saved
    {
      highWaterMark := saved.highWaterMark;
      drawdown := saved.drawdown;
      dailyHaltDate := saved.dailyHaltDate;
      drawdownHalt := saved.drawdownHalt;
      today := saved.today;
    }
  }

  // ---------------------------------------------------------------- whole runs of one object

  datatype Event =
    | Assess(equity: Option<real>, rate: Option<real>, day: int)
    | Reset

  function Step(cfg: BreakerConfig, b: BreakerState, e: Event): BreakerState {
    match e
    case Assess(equity, rate, day) => AssessSpec(cfg, b, equity, rate, day)
    case Reset => ResetSpec(b)
  }

  function Run(cfg: BreakerConfig, events: seq<Event>): BreakerState {
    if events == [] then FRESH
    else Step(cfg, Run(cfg, events[..|events| - 1]), events[|events| - 1])
  }

  /** The positive equities assessed since the last reset. */
  function Samples(events: seq<Event>): (s: seq<real>)
    ensures AllPositive(s)
  {
    if events == [] then []
    else
      var before := Samples(events[..|events| - 1]);
      match events[|events| - 1]
      case Assess(Some(e), _, _) => if e > 0.0 then before + [e] else before
      case Reset => []
      case _ => before
  }

  /** Some drawdown reached the limit and every later one stayed strictly above the rearm level. */
  ghost predicate Latched(cfg: BreakerConfig, dds: seq<real>) {
    exists i :: 0 <= i < |dds| && LatchedFrom(cfg, dds, i)
  }

  ghost predicate LatchedFrom(cfg: BreakerConfig, dds: seq<real>, i: nat)
    requires i < |dds|
  {
    dds[i] >= cfg.maxDrawdownLimit && forall j :: i < j < |dds| ==> dds[j] > cfg.rearmDrawdown
  }

  /** The latch reacts to one more drawdown by looking at that one only. */
  lemma LatchedStep(cfg: BreakerConfig, dds: seq<real>, dd: real)
    ensures Latched(cfg, dds + [dd])
      <==> dd >= cfg.maxDrawdownLimit || (Latched(cfg, dds) && dd > cfg.rearmDrawdown)
  {
    var t := dds + [dd];
    if dd >= cfg.maxDrawdownLimit {
      assert LatchedFrom(cfg, t, |dds|);
    }
    if Latched(cfg, dds) && dd > cfg.rearmDrawdown {
      var i :| 0 <= i < |dds| && LatchedFrom(cfg, dds, i);
      assert LatchedFrom(cfg, t, i);
    }
    if Latched(cfg, t) && dd < cfg.maxDrawdownLimit {
      var i :| 0 <= i < |t| && LatchedFrom(cfg, t, i);
      assert forall j :: i < j < |dds| ==> dds[j] == t[j];
      assert LatchedFrom(cfg, dds, i);
      assert t[|dds|] > cfg.rearmDrawdown;
    }
  }

  /** Peak, drawdown and latch after a run are functions of the samples since the last reset. */
  ghost predicate Tracks(cfg: BreakerConfig, b: BreakerState, s: seq<real>)
    requires AllPositive(s)
  {
    (s == [] ==> b.highWaterMark == None && b.drawdown == 0.0)
    && (s != [] ==> b.highWaterMark == Some(Peak(s)) && b.drawdown == LastDrawdown(s))
    && (b.drawdownHalt <==> Latched(cfg, Drawdowns(s)))
  }

  lemma SampleStep(cfg: BreakerConfig, b: BreakerState, s: seq<real>, e: real, rate: Option<real>, day: int)
    requires AllPositive(s) && Tracks(cfg, b, s) && e > 0.0
    ensures AllPositive(s + [e])
    ensures var a, dd := AssessSpec(cfg, b, Some(e), rate, day), LastDrawdown(s + [e]);
      a.highWaterMark == Some(Peak(s + [e])) && a.drawdown == dd
      && (a.drawdownHalt <==> dd >= cfg.maxDrawdownLimit || (b.drawdownHalt && dd > cfg.rearmDrawdown))
  {
    PeakExtend(s, e);
    FractionNonnegative(Peak(s + [e]), e);
  }

  lemma {:induction false} SampleTracked(cfg: BreakerConfig, b: BreakerState, s: seq<real>, e: real, rate: Option<real>, day: int)
    requires AllPositive(s) && Tracks(cfg, b, s) && e > 0.0
    ensures AllPositive(s + [e]) && Tracks(cfg, AssessSpec(cfg, b, Some(e), rate, day), s + [e])
  {
    SampleStep(cfg, b, s, e, rate, day);
    DrawdownsExtend(s, e);
    LatchedStep(cfg, Drawdowns(s), LastDrawdown(s + [e]));
  }

  lemma NonSampleTracked(cfg: BreakerConfig, b: BreakerState, s: seq<real>, equity: Option<real>, rate: Option<real>, day: int)
    requires AllPositive(s) && Tracks(cfg, b, s) && (equity.None? || equity.value <= 0.0)
    ensures Tracks(cfg, AssessSpec(cfg, b, equity, rate, day), s)
  {
    if s != [] {
      LatchedStep(cfg, Drawdowns(s[..|s| - 1]), LastDrawdown(s));
    }
  }

  /**
   * The latch over whole runs, resets included: the drawdown halt is on exactly when some sample since the
   * last reset reached the limit and every later one stayed above the rearm level.
   */
  lemma {:induction false} LatchCharacterised(cfg: BreakerConfig, events: seq<Event>)
    ensures Tracks(cfg, Run(cfg, events), Samples(events))
    ensures Run(cfg, events).drawdownHalt
      <==> exists i :: 0 <= i < |Samples(events)| && HaltedSince(cfg, Samples(events), i)
  {
    LatchedOnSamples(cfg, Samples(events));
    hide HaltedSince;
    if events != [] {
      var before := events[..|events| - 1];
      LatchCharacterised(cfg, before);
      match events[|events| - 1] {
        case Assess(equity, rate, day) =>
          if equity.Some? && equity.value > 0.0 {
            SampleTracked(cfg, Run(cfg, before), Samples(before), equity.value, rate, day);
          } else {
            NonSampleTracked(cfg, Run(cfg, before), Samples(before), equity, rate, day);
          }
        case Reset =>
      }
    }
  }

  /** The drawdown right after sample i. */
  function DrawdownAfter(s: seq<real>, i: nat): real
    requires AllPositive(s) && i < |s|
  {
    assert forall k :: 0 <= k <= i ==> s[..i + 1][k] == s[k];
    LastDrawdown(s[..i + 1])
  }

  /** Sample i reached the limit, and after every later sample the drawdown was above the rearm level. */
  ghost predicate HaltedSince(cfg: BreakerConfig, s: seq<real>, i: nat)
    requires AllPositive(s) && i < |s|
  {
    DrawdownAfter(s, i) >= cfg.maxDrawdownLimit && forall j :: i < j < |s| ==> DrawdownAfter(s, j) > cfg.rearmDrawdown
  }

  lemma {:induction false} LatchedOnSamples(cfg: BreakerConfig, s: seq<real>)
    requires AllPositive(s)
    ensures Latched(cfg, Drawdowns(s)) <==> exists i :: 0 <= i < |s| && HaltedSince(cfg, s, i)
  {
    hide Drawdowns, DrawdownAfter;
    var dds := Drawdowns(s);
    forall i | 0 <= i < |s| ensures dds[i] == DrawdownAfter(s, i) {
      DrawdownIsAfter(s, i);
    }
    forall i | 0 <= i < |s| ensures LatchedFrom(cfg, dds, i) <==> HaltedSince(cfg, s, i) {
    }
  }

  lemma DrawdownIsAfter(s: seq<real>, i: nat)
    requires AllPositive(s) && i < |s|
    ensures Drawdowns(s)[i] == DrawdownAfter(s, i)
  {
    DrawdownsAt(s, i);
  }

  /** An unknown or non-positive equity never moves the peak, the drawdown or the latch of a reachable breaker. */
  lemma {:induction false} UnknownEquityChangesNothing(cfg: BreakerConfig, events: seq<Event>, equity: Option<real>, rate: Option<real>, day: int)
    requires equity.None? || equity.value <= 0.0
    ensures var b := Run(cfg, events); var a := AssessSpec(cfg, b, equity, rate, day);
      a.highWaterMark == b.highWaterMark && a.drawdown == b.drawdown && a.drawdownHalt == b.drawdownHalt
  {
    LatchCharacterised(cfg, events);
    var b, s := Run(cfg, events), Samples(events);
    NonSampleTracked(cfg, b, s, equity, rate, day);
  }

  /**
   * A loss of at least the limit trips the breaker exactly when the equity that shows it is positive
   * (or the latch is already on): an account at or below zero is not seen as a drawdown.
   */
  lemma {:induction false} LossTripsExactlyWhenPositive(cfg: BreakerConfig, events: seq<Event>, equity: real, rate: Option<real>, day: int)
    requires var hwm := Run(cfg, events).highWaterMark;
      hwm.Some? && hwm.value > 0.0 && equity <= hwm.value
      && (hwm.value - equity) / hwm.value >= cfg.maxDrawdownLimit
    ensures AssessSpec(cfg, Run(cfg, events), Some(equity), rate, day).drawdownHalt
      <==> equity > 0.0 || Run(cfg, events).drawdownHalt
  {
    if equity <= 0.0 {
      UnknownEquityChangesNothing(cfg, events, Some(equity), rate, day);
    } else {
      LatchCharacterised(cfg, events);
    }
  }

  /** The failing input: an account wiped out after a peak of 100 leaves the default breaker off. */
  lemma {:induction false} WipeOutDoesNotTrip()
    ensures var cfg := BreakerConfig(0.05, 0.15, 0.08);
      var b := Run(cfg, [Assess(Some(100.0), None, 1), Assess(Some(0.0), None, 2)]);
      !b.drawdownHalt && b.dailyHaltDate == None
  {
    var cfg := BreakerConfig(0.05, 0.15, 0.08);
    var one := [Assess(Some(100.0), None, 1)];
    var two := one + [Assess(Some(0.0), None, 2)];
    assert one[..0] == [] && two[..1] == one;
    assert Run(cfg, []) == FRESH;
    assert Run(cfg, one) == BreakerState(Some(100.0), 0.0, None, false, Some(1));
  }

  // ---------------------------------------------------------------- the daily halt

  function LastDay(events: seq<Event>): Option<int> {
    if events == [] then None
    else if events[|events| - 1].Assess? then Some(events[|events| - 1].day)
    else LastDay(events[..|events| - 1])
  }

  /** Assessment dates never run backwards. */
  predicate DatesAscend(events: seq<Event>) {
    events == []
    || (var before, e := events[..|events| - 1], events[|events| - 1];
        DatesAscend(before) && (e.Assess? && LastDay(before).Some? ==> LastDay(before).value <= e.day))
  }

  /** The dates that saw a daily loss at or beyond the limit since the last reset. */
  function LossDays(cfg: BreakerConfig, events: seq<Event>): set<int> {
    if events == [] then {}
    else
      var before := LossDays(cfg, events[..|events| - 1]);
      match events[|events| - 1]
      case Assess(_, Some(rate), day) => if rate <= -cfg.dailyLossLimit then before + {day} else before
      case Reset => {}
      case _ => before
  }

  /**
   * The daily halt over whole runs: it is on exactly when the latest assessed date saw a loss at or
   * beyond the limit since the last reset, so it lasts that day, rebounds included, and no longer.
   */
  lemma {:induction false} DailyHaltCharacterised(cfg: BreakerConfig, events: seq<Event>)
    requires DatesAscend(events)
    ensures var b, lost := Run(cfg, events), LossDays(cfg, events);
      b.today == LastDay(events)
      && (b.DailyHaltActive() <==> b.today.Some? && b.today.value in lost)
      && (b.dailyHaltDate.Some? <==> lost != {})
      && (forall d :: d in lost ==> b.today.Some? && d <= b.dailyHaltDate.value <= b.today.value)
      && (b.dailyHaltDate.Some? ==> b.dailyHaltDate.value in lost)
  {
    if events != [] {
      DailyHaltCharacterised(cfg, events[..|events| - 1]);
      if events[|events| - 1].Reset? {
        assert LossDays(cfg, events) == {};
      }
    }
  }

  /**
   * When buys are stopped, from the history alone: the latch is on for some sample since the last reset, or the last
   * assessed date saw a loss at or beyond the limit since then.
   */
  ghost predicate StopsBuys(cfg: BreakerConfig, events: seq<Event>) {
    (exists i :: 0 <= i < |Samples(events)| && HaltedSince(cfg, Samples(events), i))
    || (LastDay(events).Some? && LastDay(events).value in LossDays(cfg, events))
  }

  /** The breaker's word is exactly that, after every run. */
  lemma {:induction false} TrippedExactlyWhen(cfg: BreakerConfig, events: seq<Event>)
    requires DatesAscend(events)
    ensures Run(cfg, events).Tripped() <==> StopsBuys(cfg, events)
  {
    hide HaltedSince, Samples, LossDays, LastDay, Run;
    LatchCharacterised(cfg, events);
    DailyHaltCharacterised(cfg, events);
  }

  /** What one assessment answers, from the history including it. */
  lemma {:induction false} AssessAnswers(cfg: BreakerConfig, events: seq<Event>, equity: Option<real>, rate: Option<real>, day: int)
    requires DatesAscend(events + [Assess(equity, rate, day)])
    ensures var b := AssessSpec(cfg, Run(cfg, events), equity, rate, day);
      (b.drawdownHalt || b.dailyHaltDate == Some(day)) <==> StopsBuys(cfg, events + [Assess(equity, rate, day)])
  {
    hide StopsBuys, DatesAscend;
    var all := events + [Assess(equity, rate, day)];
    assert all[..|all| - 1] == events;
    TrippedExactlyWhen(cfg, all);
    assert Run(cfg, all) == AssessSpec(cfg, Run(cfg, events), equity, rate, day);
  }

  /** Assessments of one date only. */
  predicate SameDate(events: seq<Event>, day: int) {
    forall i :: 0 <= i < |events| ==> events[i].Assess? && events[i].day == day
  }

  /** A loss day stays one: whatever is assessed later on that date, without a reset. */
  lemma {:induction false} LossDayLasts(cfg: BreakerConfig, events: seq<Event>, equity: Option<real>, rate: real, day: int, later: seq<Event>)
    requires rate <= -cfg.dailyLossLimit && SameDate(later, day)
    ensures var b := Run(cfg, events + [Assess(equity, Some(rate), day)] + later);
      b.dailyHaltDate == Some(day) && b.today == Some(day)
  {
    var first := events + [Assess(equity, Some(rate), day)];
    if later == [] {
      assert first + later == first && first[..|first| - 1] == events;
    } else {
      var n := |later| - 1;
      LossDayLasts(cfg, events, equity, rate, day, later[..n]);
      var all := first + later;
      assert all[..|all| - 1] == first + later[..n] && all[|all| - 1] == later[n];
    }
  }

  // ---------------------------------------------------------------- saves and restarts

  /** A save writes the dump to the engine row; a restart restores the last row written, or starts fresh. */
  datatype Turn = Happens(event: Event) | Save | Restart

  datatype Machine = Machine(live: BreakerState, saved: BreakerState)

  function RunTurns(cfg: BreakerConfig, turns: seq<Turn>): Machine {
    if turns == [] then Machine(FRESH, FRESH)
    else
      var m := RunTurns(cfg, turns[..|turns| - 1]);
      match turns[|turns| - 1]
      case Happens(e) => m.(live := Step(cfg, m.live, e))
      case Save => m.(saved := m.live)
      case Restart => m.(live := m.saved)
  }

  /** The events the live object, and the row, still know of. */
  datatype Memory = Memory(live: seq<Event>, saved: seq<Event>)

  function Remembered(turns: seq<Turn>): Memory {
    if turns == [] then Memory([], [])
    else
      var m := Remembered(turns[..|turns| - 1]);
      match turns[|turns| - 1]
      case Happens(e) => m.(live := m.live + [e])
      case Save => m.(saved := m.live)
      case Restart => m.(live := m.saved)
  }

  /** A restart forgets exactly what happened since the last save; what was saved goes on as if nothing had happened. */
  lemma {:induction false} RestartForgetsUnsaved(cfg: BreakerConfig, turns: seq<Turn>)
    ensures RunTurns(cfg, turns) == Machine(Run(cfg, Remembered(turns).live), Run(cfg, Remembered(turns).saved))
  {
    hide Step;
    if turns != [] {
      var m := Remembered(turns[..|turns| - 1]);
      RestartForgetsUnsaved(cfg, turns[..|turns| - 1]);
      if turns[|turns| - 1].Happens? {
        var grown := m.live + [turns[|turns| - 1].event];
        assert grown[..|grown| - 1] == m.live;
      }
    }
  }

  /** The latch over saves and restarts: the same characterisation, on the samples that are still remembered. */
  lemma {:induction false} LatchOverRestarts(cfg: BreakerConfig, turns: seq<Turn>)
    ensures var s := Samples(Remembered(turns).live);
      RunTurns(cfg, turns).live.drawdownHalt <==> exists i :: 0 <= i < |s| && HaltedSince(cfg, s, i)
  {
    hide HaltedSince, Samples, Run, RunTurns, Remembered;
    RestartForgetsUnsaved(cfg, turns);
    LatchCharacterised(cfg, Remembered(turns).live);
  }

  /** Everything that happened, forgotten or not. */
  function Happened(turns: seq<Turn>): seq<Event> {
    if turns == [] then []
    else
      Happened(turns[..|turns| - 1]) + (if turns[|turns| - 1].Happens? then [turns[|turns| - 1].event] else [])
  }

  predicate NoLaterThan(a: Option<int>, b: Option<int>) {
    a.Some? ==> b.Some? && a.value <= b.value
  }

  lemma EventAdded(events: seq<Event>, e: Event)
    ensures LastDay(events + [e]) == if e.Assess? then Some(e.day) else LastDay(events)
    ensures DatesAscend(events + [e])
      <==> DatesAscend(events) && (e.Assess? ==> NoLaterThan(LastDay(events), Some(e.day)))
  {
    assert (events + [e])[..|events|] == events;
  }

  /** When assessment dates ascend over the whole history, they ascend among the remembered events. */
  lemma {:induction false} MemoryAscends(turns: seq<Turn>)
    requires DatesAscend(Happened(turns))
    ensures var m := Remembered(turns);
      DatesAscend(m.live) && DatesAscend(m.saved)
      && NoLaterThan(LastDay(m.live), LastDay(Happened(turns))) && NoLaterThan(LastDay(m.saved), LastDay(Happened(turns)))
  {
    hide DatesAscend, LastDay;
    if turns == [] {
      NothingAscends();
    } else {
      var before := turns[..|turns| - 1];
      var m := Remembered(before);
      if turns[|turns| - 1].Happens? {
        var e := turns[|turns| - 1].event;
        EventAdded(Happened(before), e);
        MemoryAscends(before);
        EventAdded(m.live, e);
      } else {
        assert Happened(turns) == Happened(before);
        MemoryAscends(before);
      }
    }
  }

  lemma NothingAscends()
    ensures DatesAscend([]) && LastDay([]) == None
  {
  }

  /** The daily halt over saves and restarts: on exactly when the last remembered date is a remembered loss day. */
  lemma {:induction false} DailyHaltOverRestarts(cfg: BreakerConfig, turns: seq<Turn>)
    requires DatesAscend(Happened(turns))
    ensures var b, known := RunTurns(cfg, turns).live, Remembered(turns).live;
      b.today == LastDay(known)
      && (b.DailyHaltActive() <==> b.today.Some? && b.today.value in LossDays(cfg, known))
  {
    hide DatesAscend, LastDay, Run, RunTurns, Remembered, Happened, LossDays;
    RestartForgetsUnsaved(cfg, turns);
    MemoryAscends(turns);
    DailyHaltCharacterised(cfg, Remembered(turns).live);
  }
}
