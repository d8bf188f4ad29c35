/** What every replay keeps: no order is lost, entry dates are real entries, and the future never leaks back. */
module ReplayLaws {
  import opened Prelude
  import opened Sorting
  import opened Orders
  import opened Paper
  import opened Exits
  import opened Replay

  // ---------------------------------------------------------------- the run as a loop

  /** The result of a backtest run: the simulation of all its dates. */
  method RunBacktest<S>(h: History, cfg: Config, tick: (S, View) -> (S, seq<OrderRequest>), svc0: S)
    returns (curve: seq<(int, real, Option<real>)>, trades: nat, buys: nat, unfilled: nat, paper: PaperPortfolio)
    ensures var dates := Sorted(DatesOf(h)); var sim := Simulate(h, cfg, tick, svc0, dates, |dates|);
      curve == sim.curve && buys == sim.book.buys && unfilled == sim.book.unfilled
      && paper.State() == sim.book.ledger && trades == sim.book.ledger.tradeCount
  {
    hide DatesOf, Day, Sorted, SortedSeries;
    var dates := Sorted(DatesOf(h));
    var toss := new ReplayToss(h);
    paper := new PaperPortfolio(cfg.seed);
    var svc, pending: seq<OrderRequest>, book := svc0, [], Start(cfg, svc0).book;
    curve := [];
    ghost var generated: nat := 0;
    for k := 0 to |dates|
      invariant AllHeld(paper.positions) && paper.State() == book.ledger && toss.series == SortedSeries(h)
      invariant Sim(svc, book, pending, curve, generated) == Simulate(h, cfg, tick, svc0, dates, k)
      invariant fresh(toss) && fresh(paper)
    {
      if k >= cfg.warmup {
        var orders, point;
        toss.currentDate := dates[k];
        svc, book, orders, point := RunDay(h, cfg, tick, dates, k, toss, paper, svc, book, pending, curve, generated);
        pending, generated := orders, generated + |orders|;
        curve := curve + [point];
      }
    }
    trades, buys, unfilled := paper.tradeCount, book.buys, book.unfilled;
  }

  method RunDay<S>(
    h: History, cfg: Config, tick: (S, View) -> (S, seq<OrderRequest>), dates: seq<int>, k: nat,
    toss: ReplayToss, paper: PaperPortfolio, svc: S, book: Book, pending: seq<OrderRequest>,
    ghost curve: seq<(int, real, Option<real>)>, ghost generated: nat)
    returns (svc': S, book': Book, orders: seq<OrderRequest>, point: (int, real, Option<real>))
    requires k < |dates| && toss.series == SortedSeries(h) && toss.currentDate == dates[k]
    requires AllHeld(paper.positions) && paper.State() == book.ledger
    modifies paper
    ensures AllHeld(paper.positions) && paper.State() == book'.ledger
    ensures Sim(svc', book', orders, curve + [point], generated + |orders|)
      == Day(h, cfg, tick, dates, k, Sim(svc, book, pending, curve, generated))
  {
    hide SortedSeries, Watched, MarksOn, FillAtOpen, Visible, DaysHeld, SyntheticHoldings, Forced;
    var d := dates[k];
    book' := book;
    for i := 0 to |pending|
      invariant AllHeld(paper.positions) && paper.State() == book'.ledger
      invariant book' == FillPending(toss.series, cfg.cost, d, book, pending[..i])
    {
      assert pending[..i + 1][..i] == pending[..i];
      book' := FillOne(toss, paper, cfg.cost, d, book', pending[i]);
    }
    assert pending[..|pending|] == pending;
    var marks := MarksOn(toss.series, Watched(h, cfg), cfg.benchmark, d);
    var forced := EvaluateExits(paper.positions, marks, DaysHeld(dates, k, book'), cfg.exits);
    var holdings := paper.ToSyntheticHoldings(marks);
    var view := View(d, Watched(h, cfg), Visible(toss.series, toss.currentDate), holdings, paper.cash, forced);
    var answer := tick(svc, view);
    svc', orders := answer.0, answer.1;
    var equity, value := paper.MarkEquity(marks);
    point := (d, equity, if cfg.benchmark.Some? then Get(marks, cfg.benchmark.value) else None);
  }

  method FillOne(toss: ReplayToss, paper: PaperPortfolio, cost: CostConfig, d: int, book: Book, req: OrderRequest) returns (r: Book)
    requires AllHeld(paper.positions) && paper.State() == book.ledger
    modifies paper
    ensures AllHeld(paper.positions) && paper.State() == r.ledger
    ensures r == FillAtOpen(toss.series, cost, d, book, req)
  {
    hide FillSpec, FirstOn, Bars;
    var bar := toss.FindBar(req.symbol, d);
    if bar.None? {
      return Unfilled(book);
    }
    var fill := paper.ApplyFill(req.(price := Some(bar.value.open)), cost, Some(NowOn(d)));
    r := book.(ledger := paper.State());
    if fill.None? || fill.value.skipped {
      return Unfilled(r);
    }
    var held := req.symbol in paper.positions;
    r := r.(log := r.log + [Effect(d, req.symbol, req.side, held)]);
    if req.side.Buy? {
      r := r.(buys := r.buys + 1);
      if req.symbol !in r.entryDay {
        r := r.(entryDay := r.entryDay[req.symbol := d]);
      }
    } else if !held {
      r := r.(entryDay := r.entryDay - {req.symbol});
    }
  }

  // ---------------------------------------------------------------- order accounting

  /** Orders whose fate is known: bought, sold, or lapsed. */
  function Settled(b: Book): nat {
    b.buys + b.ledger.tradeCount + b.unfilled
  }

  /** How a fill moves the ledger, seen from outside. */
  lemma FillEffect(l: Ledger, req: OrderRequest, cost: CostConfig, now: Option<Instant>)
    requires AllHeld(l.positions)
    ensures var (after, fill) := FillSpec(l, req, cost, now); var s := req.symbol;
      after.tradeCount == l.tradeCount + (if fill.Some? && !fill.value.skipped && req.side.Sell? then 1 else 0)
      && (fill.None? || fill.value.skipped ==> after == l)
      && (fill.Some? && !fill.value.skipped && req.side.Buy? ==>
            s in after.positions
            && after.positions[s].openedAt == (if s in l.positions then l.positions[s].openedAt else now))
      && (fill.Some? && !fill.value.skipped && req.side.Sell? ==>
            s in l.positions && (s in after.positions ==> after.positions[s].openedAt == l.positions[s].openedAt))
      && after.positions.Keys - {s} == l.positions.Keys - {s}
      && (forall x :: x in l.positions && x != s ==> after.positions[x] == l.positions[x])
  {
    hide BuyTotal, SellProceeds;
  }

  lemma FillSettlesOne(series: Series, cost: CostConfig, d: int, b: Book, req: OrderRequest)
    requires AllHeld(b.ledger.positions)
    ensures Settled(FillAtOpen(series, cost, d, b, req)) == Settled(b) + 1
  {
    hide FillSpec;
    match OpenOn(series, req.symbol, d) {
      case None =>
      case Some(px) => FillEffect(b.ledger, req.(price := Some(px)), cost, Some(NowOn(d)));
    }
  }

  lemma {:induction false} PendingAllSettle(series: Series, cost: CostConfig, d: int, b: Book, pending: seq<OrderRequest>)
    requires AllHeld(b.ledger.positions)
    ensures Settled(FillPending(series, cost, d, b, pending)) == Settled(b) + |pending|
  {
    hide FillAtOpen;
    if pending != [] {
      var n := |pending| - 1;
      PendingAllSettle(series, cost, d, b, pending[..n]);
      FillSettlesOne(series, cost, d, FillPending(series, cost, d, b, pending[..n]), pending[n]);
    }
  }

  /** No order is lost: after every simulated day, the orders generated are those bought, sold, lapsed or still pending. */
  lemma {:induction false} OrdersAccounted<S>(
    h: History, cfg: Config, tick: (S, View) -> (S, seq<OrderRequest>), svc: S, dates: seq<int>, n: nat)
    requires n <= |dates|
    ensures var sim := Simulate(h, cfg, tick, svc, dates, n);
      sim.generated == sim.book.buys + sim.book.ledger.tradeCount + sim.book.unfilled + |sim.pending|
  {
    hide FillPending, ViewOn, MarksOn, SortedSeries;
    if n > cfg.warmup {
      OrdersAccounted(h, cfg, tick, svc, dates, n - 1);
      var was := Simulate(h, cfg, tick, svc, dates, n - 1);
      PendingAllSettle(SortedSeries(h), cfg.cost, dates[n - 1], was.book, was.pending);
    }
  }

  // ---------------------------------------------------------------- entry dates

  /** Whether the latest effective fill of the symbol before position i left it held. */
  ghost predicate HeldAt(log: seq<Effect>, s: Symbol, i: nat)
    requires i <= |log|
  {
    i > 0 && (if log[i - 1].symbol == s then log[i - 1].heldAfter else HeldAt(log, s, i - 1))
  }

  lemma {:induction false} HeldAtPrefix(log: seq<Effect>, e: Effect, s: Symbol, i: nat)
    requires i <= |log|
    ensures HeldAt(log + [e], s, i) == HeldAt(log, s, i)
  {
    if i > 0 {
      assert (log + [e])[i - 1] == log[i - 1];
      HeldAtPrefix(log, e, s, i - 1);
    }
  }

  /** Entry i is the first buy of the symbol since it was last flat, and it has been held ever since. */
  ghost predicate IsEntry(log: seq<Effect>, s: Symbol, i: nat)
    requires i < |log|
  {
    log[i].symbol == s && log[i].side.Buy? && !HeldAt(log, s, i)
    && forall j :: i <= j < |log| && log[j].symbol == s ==> log[j].heldAfter
  }

  ghost predicate EntryOn(log: seq<Effect>, s: Symbol, day: int) {
    exists i :: 0 <= i < |log| && IsEntry(log, s, i) && log[i].day == day
  }

  /** The two sets of books agree: what is held, since when, and the log that shows it. */
  ghost predicate BooksAgree(b: Book) {
    b.entryDay.Keys == b.ledger.positions.Keys
    && (forall s :: s in b.entryDay ==> b.ledger.positions[s].openedAt == Some(NowOn(b.entryDay[s])))
    && (forall s :: s in b.entryDay ==> EntryOn(b.log, s, b.entryDay[s]))
    && (forall s :: s !in b.entryDay ==> !HeldAt(b.log, s, |b.log|))
  }

  lemma EntrySurvives(log: seq<Effect>, s: Symbol, day: int, e: Effect)
    requires EntryOn(log, s, day) && (e.symbol == s ==> e.heldAfter)
    ensures EntryOn(log + [e], s, day)
  {
    var i :| 0 <= i < |log| && IsEntry(log, s, i) && log[i].day == day;
    HeldAtPrefix(log, e, s, i);
    assert IsEntry(log + [e], s, i);
  }

  lemma EntryStarts(log: seq<Effect>, s: Symbol, day: int)
    requires !HeldAt(log, s, |log|)
    ensures EntryOn(log + [Effect(day, s, Buy, true)], s, day)
  {
    HeldAtPrefix(log, Effect(day, s, Buy, true), s, |log|);
    assert IsEntry(log + [Effect(day, s, Buy, true)], s, |log|);
  }

  lemma FlatStays(log: seq<Effect>, s: Symbol, e: Effect)
    requires e.symbol == s ==> !e.heldAfter
    requires e.symbol != s ==> !HeldAt(log, s, |log|)
    ensures !HeldAt(log + [e], s, |log| + 1)
  {
    HeldAtPrefix(log, e, s, |log|);
  }

  lemma FillKeepsBooks(series: Series, cost: CostConfig, d: int, b: Book, req: OrderRequest)
    requires AllHeld(b.ledger.positions) && BooksAgree(b)
    ensures BooksAgree(FillAtOpen(series, cost, d, b, req))
  {
    hide FillSpec, HeldAt, EntryOn, NowOn, AllHeld;
    match OpenOn(series, req.symbol, d) {
      case None =>
      case Some(px) =>
        var priced := req.(price := Some(px));
        FillEffect(b.ledger, priced, cost, Some(NowOn(d)));
        var (after, fill) := FillSpec(b.ledger, priced, cost, Some(NowOn(d)));
        if fill.Some? && !fill.value.skipped {
          var e := Effect(d, req.symbol, req.side, req.symbol in after.positions);
          BooksAfterFill(b, after, e, FillAtOpen(series, cost, d, b, req));
        }
    }
  }

  /** Keeping the entry dates in step with one fill, from what the fill did to the ledger and the log. */
  lemma BooksAfterFill(b: Book, after: Ledger, e: Effect, r: Book)
    requires BooksAgree(b) && e.heldAfter == (e.symbol in after.positions) && (e.side.Buy? ==> e.heldAfter)
    requires after.positions.Keys - {e.symbol} == b.ledger.positions.Keys - {e.symbol}
    requires forall s :: s in after.positions && s in b.ledger.positions ==>
      after.positions[s].openedAt == b.ledger.positions[s].openedAt
    requires e.side.Buy? && e.symbol !in b.ledger.positions ==> after.positions[e.symbol].openedAt == Some(NowOn(e.day))
    requires e.side.Sell? ==> e.symbol in b.ledger.positions
    requires r.ledger == after && r.log == b.log + [e]
    requires r.entryDay == if e.side.Buy? then (if e.symbol in b.entryDay then b.entryDay else b.entryDay[e.symbol := e.day])
                           else if e.heldAfter then b.entryDay else b.entryDay - {e.symbol}
    ensures BooksAgree(r)
  {
    hide HeldAt, EntryOn, NowOn;
    LogStep(b, after, e);
    forall s ensures s in r.entryDay <==> s in after.positions {
      assert s in after.positions.Keys - {e.symbol} <==> s in b.ledger.positions.Keys - {e.symbol};
    }
  }

  lemma LogStep(b: Book, after: Ledger, e: Effect)
    requires BooksAgree(b) && e.heldAfter == (e.symbol in after.positions)
    requires e.side.Buy? ==> e.symbol in after.positions
    ensures forall s :: s in b.entryDay && s in after.positions ==> EntryOn(b.log + [e], s, b.entryDay[s])
    ensures e.side.Buy? && e.symbol !in b.entryDay ==> EntryOn(b.log + [e], e.symbol, e.day)
    ensures forall s :: s !in after.positions && (s == e.symbol || s !in b.entryDay) ==> !HeldAt(b.log + [e], s, |b.log| + 1)
  {
    hide HeldAt, EntryOn;
    forall s | s in b.entryDay && s in after.positions ensures EntryOn(b.log + [e], s, b.entryDay[s]) {
      EntrySurvives(b.log, s, b.entryDay[s], e);
    }
    if e.side.Buy? && e.symbol !in b.entryDay {
      EntryStarts(b.log, e.symbol, e.day);
    }
    forall s | s !in after.positions && (s == e.symbol || s !in b.entryDay) ensures !HeldAt(b.log + [e], s, |b.log| + 1) {
      FlatStays(b.log, s, e);
    }
  }

  lemma {:induction false} PendingKeepsBooks(series: Series, cost: CostConfig, d: int, b: Book, pending: seq<OrderRequest>)
    requires AllHeld(b.ledger.positions) && BooksAgree(b)
    ensures BooksAgree(FillPending(series, cost, d, b, pending))
  {
    hide FillAtOpen, BooksAgree;
    if pending != [] {
      var n := |pending| - 1;
      PendingKeepsBooks(series, cost, d, b, pending[..n]);
      FillKeepsBooks(series, cost, d, FillPending(series, cost, d, b, pending[..n]), pending[n]);
    }
  }

  lemma StartAgrees(cfg: Config)
    ensures BooksAgree(Book(Ledger(cfg.seed, map[], 0.0, 0), map[], 0, 0, []))
  {
  }

  /**
   * Entry dates are real entries: after every simulated day exactly the held symbols have one, it is the day
   * the ledger itself recorded, and it is the day of the first buy since the position was last flat.
   */
  lemma {:induction false} EntryDatesAreReal<S>(
    h: History, cfg: Config, tick: (S, View) -> (S, seq<OrderRequest>), svc: S, dates: seq<int>, n: nat)
    requires n <= |dates|
    ensures var b := Simulate(h, cfg, tick, svc, dates, n).book;
      BooksAgree(b) && b.entryDay.Keys == b.ledger.positions.Keys
      && forall s :: s in b.entryDay ==> b.ledger.positions[s].openedAt == Some(b.entryDay[s] * MICROS_PER_DAY + MARKET_CLOSE)
  {
    EntriesAgree(h, cfg, tick, svc, dates, n);
  }

  lemma {:induction false} EntriesAgree<S>(
    h: History, cfg: Config, tick: (S, View) -> (S, seq<OrderRequest>), svc: S, dates: seq<int>, n: nat)
    requires n <= |dates|
    ensures BooksAgree(Simulate(h, cfg, tick, svc, dates, n).book)
  {
    hide FillPending, ViewOn, MarksOn, SortedSeries, BooksAgree;
    if n <= cfg.warmup {
      StartAgrees(cfg);
    } else {
      EntriesAgree(h, cfg, tick, svc, dates, n - 1);
      var was := Simulate(h, cfg, tick, svc, dates, n - 1);
      PendingKeepsBooks(SortedSeries(h), cfg.cost, dates[n - 1], was.book, was.pending);
    }
  }

  // ---------------------------------------------------------------- no look-ahead

  /** Same symbols, and the same bars dated on or before d, in whatever order they were given. */
  ghost predicate AgreeUpTo(h1: History, h2: History, d: int) {
    h1.symbols == h2.symbols && h1.bars.Keys == h2.bars.Keys
    && forall s :: s in h1.bars ==> UpTo(h1.bars[s], d) == UpTo(h2.bars[s], d)
  }

  lemma UpToAppend(s: seq<Bar>, b: Bar, d: int)
    ensures UpTo(s + [b], d) == (if b.date <= d then UpTo(s, d) + [b] else UpTo(s, d))
  {
    assert (s + [b])[..|s|] == s;
  }

  lemma InsertAppend(b: Bar, s: seq<Bar>, last: Bar)
    ensures Insert(b, s + [last]) == (if last.date <= b.date then s + [last] + [b] else Insert(b, s) + [last])
  {
    assert (s + [last])[..|s|] == s;
  }

  lemma {:induction false} UpToInsert(b: Bar, s: seq<Bar>, d: int)
    ensures UpTo(Insert(b, s), d) == (if b.date <= d then Insert(b, UpTo(s, d)) else UpTo(s, d))
  {
    if s == [] {
      UpToAppend([], b, d);
      assert [] + [b] == [b];
    } else {
      var n := |s| - 1;
      var last := s[n];
      if last.date <= b.date {
        UpToAppend(s, b, d);
        if b.date <= d {
          InsertAppend(b, UpTo(s[..n], d), last);
        }
      } else {
        UpToInsert(b, s[..n], d);
        UpToAppend(Insert(b, s[..n]), last, d);
        if last.date <= d {
          InsertAppend(b, UpTo(s[..n], d), last);
        }
      }
    }
  }

  /** Cutting the future off commutes with sorting: the stable sort never mixes later bars in. */
  lemma {:induction false} UpToSort(bars: seq<Bar>, d: int)
    ensures UpTo(SortBars(bars), d) == SortBars(UpTo(bars, d))
  {
    if bars != [] {
      var n := |bars| - 1;
      UpToSort(bars[..n], d);
      UpToInsert(bars[n], SortBars(bars[..n]), d);
      if bars[n].date <= d {
        SortAppend(UpTo(bars[..n], d), bars[n]);
      }
    }
  }

  lemma SortAppend(bars: seq<Bar>, b: Bar)
    ensures SortBars(bars + [b]) == Insert(b, SortBars(bars))
  {
    assert (bars + [b])[..|bars|] == bars;
  }

  lemma {:induction false} UpToUpTo(bars: seq<Bar>, d: int, e: int)
    requires e <= d
    ensures UpTo(UpTo(bars, d), e) == UpTo(bars, e)
  {
    if bars != [] {
      var n := |bars| - 1;
      UpToUpTo(bars[..n], d, e);
      UpToAppend(UpTo(bars[..n], d), bars[n], e);
    }
  }

  lemma {:induction false} FirstOnUpTo(bars: seq<Bar>, d: int, e: int)
    requires e <= d
    ensures FirstOn(UpTo(bars, d), e) == FirstOn(bars, e)
  {
    if bars != [] {
      var n := |bars| - 1;
      FirstOnUpTo(bars[..n], d, e);
      assert (UpTo(bars[..n], d) + [bars[n]])[..|UpTo(bars[..n], d)|] == UpTo(bars[..n], d);
    }
  }

  /** The sorted series of agreeing histories agree on every cut at or before d. */
  ghost predicate SeriesAgree(s1: Series, s2: Series, d: int) {
    s1.Keys == s2.Keys && forall s :: s in s1 ==> UpTo(s1[s], d) == UpTo(s2[s], d)
  }

  lemma SortedSeriesAgree(h1: History, h2: History, d: int)
    requires AgreeUpTo(h1, h2, d)
    ensures SeriesAgree(SortedSeries(h1), SortedSeries(h2), d)
  {
    forall s | s in h1.bars ensures UpTo(SortBars(h1.bars[s]), d) == UpTo(SortBars(h2.bars[s]), d) {
      UpToSort(h1.bars[s], d);
      UpToSort(h2.bars[s], d);
    }
  }

  lemma ServedAlike(s1: Series, s2: Series, d: int, e: int)
    requires SeriesAgree(s1, s2, d) && e <= d
    ensures Visible(s1, e) == Visible(s2, e)
    ensures forall s :: OpenOn(s1, s, e) == OpenOn(s2, s, e) && CloseOn(s1, s, e) == CloseOn(s2, s, e)
  {
    hide UpTo, FirstOn;
    forall s | s in s1 ensures UpTo(s1[s], e) == UpTo(s2[s], e) && FirstOn(s1[s], e) == FirstOn(s2[s], e) {
      UpToUpTo(s1[s], d, e);
      UpToUpTo(s2[s], d, e);
      FirstOnUpTo(s1[s], d, e);
      FirstOnUpTo(s2[s], d, e);
    }
  }

  lemma {:induction false} FillPendingAlike(s1: Series, s2: Series, cost: CostConfig, d: int, b: Book, pending: seq<OrderRequest>)
    requires AllHeld(b.ledger.positions) && forall s :: OpenOn(s1, s, d) == OpenOn(s2, s, d)
    ensures FillPending(s1, cost, d, b, pending) == FillPending(s2, cost, d, b, pending)
  {
    hide OpenOn, FillSpec;
    if pending != [] {
      FillPendingAlike(s1, s2, cost, d, b, pending[..|pending| - 1]);
    }
  }

  /** Every recorded entry day is one of the first n dates. */
  ghost predicate EntriesAmong(b: Book, dates: seq<int>, n: nat)
    requires n <= |dates|
  {
    forall s :: s in b.entryDay ==> b.entryDay[s] in dates[..n]
  }

  lemma {:induction false} PendingEntries(series: Series, cost: CostConfig, b: Book, pending: seq<OrderRequest>, dates: seq<int>, k: nat)
    requires AllHeld(b.ledger.positions) && k < |dates| && EntriesAmong(b, dates, k)
    ensures EntriesAmong(FillPending(series, cost, dates[k], b, pending), dates, k + 1)
  {
    hide FillSpec, OpenOn;
    assert dates[..k + 1] == dates[..k] + [dates[k]];
    if pending != [] {
      PendingEntries(series, cost, b, pending[..|pending| - 1], dates, k);
    }
  }

  lemma {:induction false} SimulatedEntries<S>(
    h: History, cfg: Config, tick: (S, View) -> (S, seq<OrderRequest>), svc: S, dates: seq<int>, n: nat)
    requires n <= |dates|
    ensures EntriesAmong(Simulate(h, cfg, tick, svc, dates, n).book, dates, n)
  {
    hide FillPending, ViewOn, MarksOn, SortedSeries;
    if n > cfg.warmup {
      SimulatedEntries(h, cfg, tick, svc, dates, n - 1);
      var was := Simulate(h, cfg, tick, svc, dates, n - 1);
      PendingEntries(SortedSeries(h), cfg.cost, was.book, was.pending, dates, n - 1);
    }
  }

  lemma {:induction false} IndexOfPrefix(dates: seq<int>, n: nat, d: int)
    requires StrictlySorted(dates) && n <= |dates| && d in dates[..n]
    ensures IndexOf(dates, d) == IndexOf(dates[..n], d)
  {
    var i, j := IndexOf(dates, d), IndexOf(dates[..n], d);
    assert dates[..n][j] == dates[j] == d;
    assert d in dates;
  }

  /** Holding periods are counted on the dates so far, although the index covers all dates. */
  lemma DaysHeldLocal(dates: seq<int>, k: nat, b: Book)
    requires StrictlySorted(dates) && k < |dates| && EntriesAmong(b, dates, k + 1)
    ensures DaysHeld(dates, k, b) == DaysHeld(dates[..k + 1], k, b)
  {
    hide IndexOf;
    forall s | s in b.entryDay
      ensures b.entryDay[s] in dates && IndexOf(dates, b.entryDay[s]) == IndexOf(dates[..k + 1], b.entryDay[s])
    {
      IndexOfPrefix(dates, k + 1, b.entryDay[s]);
    }
  }

  lemma DayAlike<S>(
    h1: History, h2: History, d: int, cfg: Config, tick: (S, View) -> (S, seq<OrderRequest>),
    dates1: seq<int>, dates2: seq<int>, k: nat, sim: Sim<S>)
    requires AgreeUpTo(h1, h2, d) && StrictlySorted(dates1) && StrictlySorted(dates2)
    requires k < |dates1| && k < |dates2| && dates1[..k + 1] == dates2[..k + 1] && dates1[k] <= d
    requires AllHeld(sim.book.ledger.positions) && EntriesAmong(sim.book, dates1, k)
    ensures Day(h1, cfg, tick, dates1, k, sim) == Day(h2, cfg, tick, dates2, k, sim)
  {
    hide SortedSeries, FillPending, Visible, CloseOn, OpenOn, DaysHeld, Forced, SyntheticHoldings, Watched;
    var s1, s2 := SortedSeries(h1), SortedSeries(h2);
    SortedSeriesAgree(h1, h2, d);
    assert dates1[k] == dates1[..k + 1][k] == dates2[..k + 1][k] == dates2[k];
    ServedAlike(s1, s2, d, dates1[k]);
    FillPendingAlike(s1, s2, cfg.cost, dates1[k], sim.book, sim.pending);
    var book := FillPending(s1, cfg.cost, dates1[k], sim.book, sim.pending);
    PendingEntries(s1, cfg.cost, sim.book, sim.pending, dates1, k);
    DaysHeldLocal(dates1, k, book);
    DaysHeldLocal(dates2, k, book);
    SameWatched(h1, h2, cfg);
    assert MarksOn(s1, Watched(h1, cfg), cfg.benchmark, dates1[k]) == MarksOn(s2, Watched(h2, cfg), cfg.benchmark, dates2[k]);
  }

  lemma SameWatched(h1: History, h2: History, cfg: Config)
    requires h1.symbols == h2.symbols
    ensures Watched(h1, cfg) == Watched(h2, cfg)
  {
  }

  lemma {:induction false} SimulateAlike<S>(
    h1: History, h2: History, d: int, cfg: Config, tick: (S, View) -> (S, seq<OrderRequest>), svc: S,
    dates1: seq<int>, dates2: seq<int>, n: nat)
    requires AgreeUpTo(h1, h2, d) && StrictlySorted(dates1) && StrictlySorted(dates2)
    requires n <= |dates1| && n <= |dates2| && dates1[..n] == dates2[..n] && (n > 0 ==> dates1[n - 1] <= d)
    ensures Simulate(h1, cfg, tick, svc, dates1, n) == Simulate(h2, cfg, tick, svc, dates2, n)
  {
    hide Day;
    if n > cfg.warmup {
      assert dates1[..n][..n - 1] == dates1[..n - 1] && dates2[..n][..n - 1] == dates2[..n - 1];
      SimulateAlike(h1, h2, d, cfg, tick, svc, dates1, dates2, n - 1);
      SimulatedEntries(h1, cfg, tick, svc, dates1, n - 1);
      DayAlike(h1, h2, d, cfg, tick, dates1, dates2, n - 1, Simulate(h1, cfg, tick, svc, dates1, n - 1));
    }
  }

  lemma {:induction false} InUpTo(bars: seq<Bar>, d: int, b: Bar)
    ensures b in UpTo(bars, d) <==> b in bars && b.date <= d
  {
    if bars != [] {
      InUpTo(bars[..|bars| - 1], d, b);
      assert bars == bars[..|bars| - 1] + [bars[|bars| - 1]];
    }
  }

  lemma DateSeenInBoth(h1: History, h2: History, d: int, x: int)
    requires AgreeUpTo(h1, h2, d) && x <= d && x in DatesOf(h1)
    ensures x in DatesOf(h2)
  {
    var s, i :| s in h1.bars && 0 <= i < |h1.bars[s]| && h1.bars[s][i].date == x;
    var b := h1.bars[s][i];
    InUpTo(h1.bars[s], d, b);
    InUpTo(h2.bars[s], d, b);
    var j :| 0 <= j < |h2.bars[s]| && h2.bars[s][j] == b;
  }

  /** How many dates of a run are on or before d. */
  ghost function DaysUpTo(h: History, d: int): nat {
    |set x | x in DatesOf(h) && x <= d|
  }

  lemma {:induction false} PrefixCount(s: set<int>, d: int)
    ensures var small := set x | x in s && x <= d;
      |small| <= |s| && Sorted(small) == Sorted(s)[..|small|]
      && forall i :: 0 <= i < |s| ==> (Sorted(s)[i] <= d <==> i < |small|)
  {
    hide Sorted;
    var small := set x | x in s && x <= d;
    var all := Sorted(s);
    var n := BoundaryOf(all, d);
    SortedPrefix(s, d, n);
  }

  /** The number of leading entries that are at most d. */
  ghost function BoundaryOf(all: seq<int>, d: int): (n: nat)
    requires StrictlySorted(all)
    ensures n <= |all| && forall i :: 0 <= i < |all| ==> (all[i] <= d <==> i < n)
  {
    if all == [] then 0
    else if all[|all| - 1] <= d then |all|
    else BoundaryOf(all[..|all| - 1], d)
  }

  lemma SameDatesUpTo(h1: History, h2: History, d: int)
    requires AgreeUpTo(h1, h2, d)
    ensures var n := DaysUpTo(h1, d); var all1, all2 := Sorted(DatesOf(h1)), Sorted(DatesOf(h2));
      n == DaysUpTo(h2, d) && n <= |all1| && n <= |all2| && all1[..n] == all2[..n] && (n > 0 ==> all1[n - 1] <= d)
  {
    hide Sorted, DatesOf;
    PrefixCount(DatesOf(h1), d);
    PrefixCount(DatesOf(h2), d);
    var small1, small2 := set x | x in DatesOf(h1) && x <= d, set x | x in DatesOf(h2) && x <= d;
    forall x | x <= d ensures x in DatesOf(h1) <==> x in DatesOf(h2) {
      if x in DatesOf(h1) {
        DateSeenInBoth(h1, h2, d, x);
      }
      if x in DatesOf(h2) {
        DateSeenInBoth(h2, h1, d, x);
      }
    }
    assert small1 == small2;
  }

  /**
   * No look-ahead, over two runs: if two histories agree on every bar up to d, then after the same number of
   * days - all those up to d - both replays have the same equity curve, ledger, books, pending orders and
   * service state, whatever the later bars are and whatever function of its view the tick is.
   */
  lemma {:induction false} NoLookAhead<S>(
    h1: History, h2: History, d: int, cfg: Config, tick: (S, View) -> (S, seq<OrderRequest>), svc: S)
    requires AgreeUpTo(h1, h2, d)
    ensures var n := DaysUpTo(h1, d); var all1, all2 := Sorted(DatesOf(h1)), Sorted(DatesOf(h2));
      n == DaysUpTo(h2, d) && n <= |all1| && n <= |all2|
      && Simulate(h1, cfg, tick, svc, all1, n) == Simulate(h2, cfg, tick, svc, all2, n)
  {
    hide Sorted, DatesOf, Simulate;
    SameDatesUpTo(h1, h2, d);
    SimulateAlike(h1, h2, d, cfg, tick, svc, Sorted(DatesOf(h1)), Sorted(DatesOf(h2)), DaysUpTo(h1, d));
  }

  // ---------------------------------------------------------------- the whole curve, seen up to d

  function CurveUpTo(curve: seq<(int, real, Option<real>)>, d: int): seq<(int, real, Option<real>)> {
    if curve == [] then []
    else
      var last := curve[|curve| - 1];
      CurveUpTo(curve[..|curve| - 1], d) + (if last.0 <= d then [last] else [])
  }

  lemma {:induction false} CurveFrozen<S>(
    h: History, d: int, cfg: Config, tick: (S, View) -> (S, seq<OrderRequest>), svc: S, dates: seq<int>, n: nat, m: nat)
    requires n <= m <= |dates| && (forall i :: n <= i < |dates| ==> dates[i] > d)
    ensures CurveUpTo(Simulate(h, cfg, tick, svc, dates, m).curve, d) == CurveUpTo(Simulate(h, cfg, tick, svc, dates, n).curve, d)
    decreases m
  {
    hide FillPending, ViewOn, MarksOn, SortedSeries, MarkedValue;
    if m > n {
      CurveFrozen(h, d, cfg, tick, svc, dates, n, m - 1);
      if m > cfg.warmup {
        var was, now := Simulate(h, cfg, tick, svc, dates, m - 1), Simulate(h, cfg, tick, svc, dates, m);
        assert now.curve[..|was.curve|] == was.curve;
      }
    }
  }

  /** The finished equity curves of two full runs show the same points up to d: later bars cannot rewrite the past. */
  lemma {:induction false} CurvesAgreeUpTo<S>(
    h1: History, h2: History, d: int, cfg: Config, tick: (S, View) -> (S, seq<OrderRequest>), svc: S)
    requires AgreeUpTo(h1, h2, d)
    ensures var all1, all2 := Sorted(DatesOf(h1)), Sorted(DatesOf(h2));
      CurveUpTo(Simulate(h1, cfg, tick, svc, all1, |all1|).curve, d)
      == CurveUpTo(Simulate(h2, cfg, tick, svc, all2, |all2|).curve, d)
  {
    hide Sorted, DatesOf, Simulate, CurveUpTo, AgreeUpTo;
    var all1, all2, n := Sorted(DatesOf(h1)), Sorted(DatesOf(h2)), DaysUpTo(h1, d);
    NoLookAhead(h1, h2, d, cfg, tick, svc);
    PrefixCount(DatesOf(h1), d);
    PrefixCount(DatesOf(h2), d);
    CurveFrozen(h1, d, cfg, tick, svc, all1, n, |all1|);
    CurveFrozen(h2, d, cfg, tick, svc, all2, n, |all2|);
  }
}
