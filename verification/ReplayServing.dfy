/** What a replay serves, fills and reports, in terms of the bars it was given. */
module ReplayServing {
  import opened Prelude
  import opened Sorting
  import opened Orders
  import opened Paper
  import opened PaperLaws
  import opened Exits
  import opened Replay
  import opened ReplayLaws

  // ---------------------------------------------------------------- bars

  ghost predicate Chronological(bars: seq<Bar>) {
    forall i, j :: 0 <= i < j < |bars| ==> bars[i].date <= bars[j].date
  }

  lemma InsertedBefore(b: Bar, s: seq<Bar>, last: Bar)
    requires Chronological(s + [last]) && b.date < last.date && Chronological(Insert(b, s))
    requires forall x :: x in Insert(b, s) ==> x in s || x == b
    ensures Chronological(Insert(b, s) + [last])
  {
    hide Insert;
    var r := Insert(b, s);
    forall i | 0 <= i < |r| ensures r[i].date <= last.date {
      assert r[i] in r;
      if r[i] in s {
        var k :| 0 <= k < |s| && s[k] == r[i];
        assert (s + [last])[k].date <= (s + [last])[|s|].date;
      }
    }
  }

  lemma {:induction false} InsertSorts(b: Bar, s: seq<Bar>)
    requires Chronological(s)
    ensures Chronological(Insert(b, s)) && multiset(Insert(b, s)) == multiset(s) + multiset{b}
    ensures forall x :: x in Insert(b, s) ==> x in s || x == b
  {
    if s != [] {
      var n := |s| - 1;
      assert s == s[..n] + [s[n]];
      if s[n].date > b.date {
        InsertSorts(b, s[..n]);
        InsertedBefore(b, s[..n], s[n]);
      }
    }
  }

  /** Sorting a history keeps its bars and puts them in order of date. */
  lemma {:induction false} SortedHistory(bars: seq<Bar>)
    ensures Chronological(SortBars(bars)) && multiset(SortBars(bars)) == multiset(bars)
  {
    hide Insert, Chronological;
    if bars == [] {
      assert Chronological([]) by { NoBars(); }
    }
    if bars != [] {
      var n := |bars| - 1;
      SortedHistory(bars[..n]);
      InsertSorts(bars[n], SortBars(bars[..n]));
      assert bars == bars[..n] + [bars[n]];
    }
  }

  lemma NoBars()
    ensures Chronological([])
  {
  }

  /** Exactly the bars dated up to the day are served, as often as they occur. */
  lemma {:induction false} ServedUpTo(bars: seq<Bar>, d: int, b: Bar)
    ensures multiset(UpTo(bars, d))[b] == if b.date <= d then multiset(bars)[b] else 0
  {
    if bars != [] {
      var n := |bars| - 1;
      ServedUpTo(bars[..n], d, b);
      assert bars == bars[..n] + [bars[n]];
    }
  }

  /** The bar of a day is the first one with that date. */
  ghost predicate IsFirstOn(bars: seq<Bar>, d: int, i: nat)
    requires i < |bars|
  {
    bars[i].date == d && forall k :: 0 <= k < i ==> bars[k].date != d
  }

  lemma {:induction false} BarOfTheDay(bars: seq<Bar>, d: int)
    ensures FirstOn(bars, d).None? ==> forall i :: 0 <= i < |bars| ==> bars[i].date != d
    ensures FirstOn(bars, d).Some? ==> exists i :: 0 <= i < |bars| && IsFirstOn(bars, d, i) && bars[i] == FirstOn(bars, d).value
  {
    if bars != [] {
      var n := |bars| - 1;
      BarOfTheDay(bars[..n], d);
      if FirstOn(bars[..n], d).Some? {
        var i :| 0 <= i < n && IsFirstOn(bars[..n], d, i) && bars[..n][i] == FirstOn(bars[..n], d).value;
        assert forall k :: 0 <= k < i ==> bars[k] == bars[..n][k];
        assert IsFirstOn(bars, d, i);
      } else if bars[n].date == d {
        assert forall k :: 0 <= k < n ==> bars[k] == bars[..n][k];
        assert IsFirstOn(bars, d, n);
      } else {
        assert forall k :: 0 <= k < n ==> bars[k] == bars[..n][k];
      }
    }
  }

  /** The watched symbols are all but the benchmark. */
  lemma {:induction false} WatchedSymbols(symbols: seq<Symbol>, benchmark: Option<Symbol>, s: Symbol)
    ensures s in Without(symbols, benchmark) <==> s in symbols && benchmark != Some(s)
  {
    if symbols != [] {
      WatchedSymbols(symbols[1..], benchmark, s);
      assert symbols == [symbols[0]] + symbols[1..];
    }
  }

  /** Marks are closes of the day, for every symbol that has a bar on it. */
  lemma {:induction false} MarksAreCloses(h: History, cfg: Config, d: int, s: Symbol)
    ensures var marks, bar := MarksOn(SortedSeries(h), Watched(h, cfg), cfg.benchmark, d), FirstOn(Bars(SortedSeries(h), s), d);
      (s in marks <==> (s in h.symbols || cfg.benchmark == Some(s)) && bar.Some?)
      && (s in marks ==> marks[s] == bar.value.close)
  {
    hide FirstOn, Bars, SortedSeries, Without;
    WatchedSymbols(h.symbols, cfg.benchmark, s);
  }

  // ---------------------------------------------------------------- fills

  /**
   * A pending order fills at the open of the day's bar: a buy that can be paid there takes exactly its shares at that
   * price with costs, a sale brings in what is held of its shares, and without a bar, or the money, or the shares,
   * the order lapses and the ledger stays as it is.
   */
  lemma {:induction false} FillsAtTheOpen(series: Series, cost: CostConfig, d: int, b: Book, req: OrderRequest)
    requires AllHeld(b.ledger.positions) && req.quantity.Some? && req.quantity.value > 0.0
    ensures var after, bar, l, qty := FillAtOpen(series, cost, d, b, req), FirstOn(Bars(series, req.symbol), d), b.ledger, req.quantity.value;
      if bar.None? then after.ledger == l && after.unfilled == b.unfilled + 1 && after.buys == b.buys
      else if req.side == Buy then
        var total := qty * (bar.value.open * cost.BuyFactor());
        if total > l.cash then after.ledger == l && after.unfilled == b.unfilled + 1 && after.buys == b.buys
        else after.ledger.cash == l.cash - total && after.unfilled == b.unfilled && after.buys == b.buys + 1
             && after.ledger.tradeCount == l.tradeCount
      else if req.symbol !in l.positions then after.ledger == l && after.unfilled == b.unfilled + 1 && after.buys == b.buys
      else
        var sold := if qty <= l.positions[req.symbol].quantity then qty else l.positions[req.symbol].quantity;
        after.ledger.cash == l.cash + sold * (bar.value.open * cost.SellFactor()) && after.unfilled == b.unfilled
        && after.buys == b.buys && after.ledger.tradeCount == l.tradeCount + 1
  {
    hide FirstOn, Bars, BuySpec, SellSpec, FillSpec, FillAtOpen, CostConfig.BuyFactor, CostConfig.SellFactor;
    var bar := FirstOn(Bars(series, req.symbol), d);
    if bar.None? {
      LapsesWithoutBar(series, cost, d, b, req);
    } else {
      var px := bar.value.open;
      FillAtOpenShape(series, cost, d, b, req, px);
      FillSpecShape(b.ledger, req.(price := Some(px)), cost, Some(NowOn(d)));
      if req.side == Buy {
        BuyFilled(b.ledger, req.symbol, req.quantity.value, px, cost, Some(NowOn(d)));
        SkippedBuyLeavesLedger(b.ledger, req.symbol, req.quantity.value, px, cost, Some(NowOn(d)));
      } else {
        SellFilled(b.ledger, req.symbol, req.quantity.value, px, cost);
      }
    }
  }

  lemma LapsesWithoutBar(series: Series, cost: CostConfig, d: int, b: Book, req: OrderRequest)
    requires AllHeld(b.ledger.positions) && FirstOn(Bars(series, req.symbol), d).None?
    ensures FillAtOpen(series, cost, d, b, req) == b.(unfilled := b.unfilled + 1)
  {
  }

  lemma FillAtOpenShape(series: Series, cost: CostConfig, d: int, b: Book, req: OrderRequest, px: real)
    requires AllHeld(b.ledger.positions)
    requires FirstOn(Bars(series, req.symbol), d).Some? && FirstOn(Bars(series, req.symbol), d).value.open == px
    ensures var r := FillAtOpen(series, cost, d, b, req);
      var (after, fill) := FillSpec(b.ledger, req.(price := Some(px)), cost, Some(NowOn(d)));
      var filled := fill.Some? && !fill.value.skipped;
      r.ledger == after && r.unfilled == b.unfilled + (if filled then 0 else 1)
      && r.buys == b.buys + (if filled && req.side == Buy then 1 else 0)
  {
    hide FillSpec, FirstOn, Bars;
  }

  lemma FillSpecShape(l: Ledger, req: OrderRequest, cost: CostConfig, now: Option<Instant>)
    requires AllHeld(l.positions) && req.price.Some? && req.quantity.Some? && req.quantity.value > 0.0
    ensures FillSpec(l, req, cost, now)
      == if req.side == Buy then
           (BuySpec(l, req.symbol, req.quantity.value, req.price.value, cost, now).0,
            Some(BuySpec(l, req.symbol, req.quantity.value, req.price.value, cost, now).1))
         else
           (SellSpec(l, req.symbol, req.quantity.value, req.price.value, cost).0,
            Some(SellSpec(l, req.symbol, req.quantity.value, req.price.value, cost).1))
  {
    hide BuySpec, SellSpec;
  }

  lemma SkippedBuyLeavesLedger(l: Ledger, symbol: Symbol, qty: real, price: real, cost: CostConfig, now: Option<Instant>)
    requires AllHeld(l.positions) && qty > 0.0
    ensures BuySpec(l, symbol, qty, price, cost, now).1.skipped ==> BuySpec(l, symbol, qty, price, cost, now).0 == l
  {
    hide BuyTotal, Blend;
  }

  /** Today's decisions never fill today: whatever the tick answers, the day's books are the same. */
  lemma TodayNeverFillsToday<S>(
    h: History, cfg: Config, tick1: (S, View) -> (S, seq<OrderRequest>), tick2: (S, View) -> (S, seq<OrderRequest>),
    dates: seq<int>, k: nat, sim: Sim<S>)
    requires k < |dates| && AllHeld(sim.book.ledger.positions)
    ensures Day(h, cfg, tick1, dates, k, sim).book == Day(h, cfg, tick2, dates, k, sim).book
    ensures Day(h, cfg, tick1, dates, k, sim).curve == Day(h, cfg, tick2, dates, k, sim).curve
  {
  }

  // ---------------------------------------------------------------- the curve

  /** One point per simulated date, in order. */
  lemma {:induction false} CurveDates<S>(
    h: History, cfg: Config, tick: (S, View) -> (S, seq<OrderRequest>), svc: S, dates: seq<int>, n: nat)
    requires n <= |dates|
    ensures var curve := Simulate(h, cfg, tick, svc, dates, n).curve;
      |curve| == (if n <= cfg.warmup then 0 else n - cfg.warmup)
      && forall i :: 0 <= i < |curve| ==> curve[i].0 == dates[cfg.warmup + i]
  {
    hide FillPending, ViewOn, MarksOn, SortedSeries;
    if n > cfg.warmup {
      CurveDates(h, cfg, tick, svc, dates, n - 1);
    }
  }

  /** The last point shows the ledger: its cash and its positions at the day's closes, beside the benchmark's close. */
  lemma {:induction false} LastPoint<S>(
    h: History, cfg: Config, tick: (S, View) -> (S, seq<OrderRequest>), svc: S, dates: seq<int>, n: nat)
    requires cfg.warmup < n <= |dates|
    ensures var sim := Simulate(h, cfg, tick, svc, dates, n); var d := dates[n - 1];
      sim.curve != []
      && (var point := sim.curve[|sim.curve| - 1];
          point.0 == d
          && point.1 == sim.book.ledger.cash
                        + MarkedValue(sim.book.ledger, MarksOn(SortedSeries(h), Watched(h, cfg), cfg.benchmark, d))
          && (cfg.benchmark.None? ==> point.2 == None)
          && (cfg.benchmark.Some? ==>
                var bar := FirstOn(Bars(SortedSeries(h), cfg.benchmark.value), d);
                point.2 == if bar.Some? then Some(bar.value.close) else None))
  {
    hide FillPending, ViewOn, SortedSeries, MarkedValue, FirstOn, Bars, Watched, MarksOn;
    if cfg.benchmark.Some? {
      MarksAreCloses(h, cfg, dates[n - 1], cfg.benchmark.value);
    }
  }

  // ---------------------------------------------------------------- the books

  function Effects(log: seq<Effect>, side: Side): nat {
    if log == [] then 0
    else Effects(log[..|log| - 1], side) + (if log[|log| - 1].side == side then 1 else 0)
  }

  ghost predicate Counted(b: Book) {
    b.buys == Effects(b.log, Buy) && b.ledger.tradeCount == Effects(b.log, Sell)
  }

  lemma FillCounts(series: Series, cost: CostConfig, d: int, b: Book, req: OrderRequest)
    requires AllHeld(b.ledger.positions) && Counted(b)
    ensures Counted(FillAtOpen(series, cost, d, b, req))
  {
    hide FillSpec, OpenOn, Effects, FillAtOpen;
    match OpenOn(series, req.symbol, d) {
      case None => Lapses(series, cost, d, b, req);
      case Some(px) =>
        FillEffect(b.ledger, req.(price := Some(px)), cost, Some(NowOn(d)));
        LogAfterFill(series, cost, d, b, req, px);
        EffectsAppend(b.log, Effect(d, req.symbol, req.side, true));
        EffectsAppend(b.log, Effect(d, req.symbol, req.side, false));
    }
  }

  lemma Lapses(series: Series, cost: CostConfig, d: int, b: Book, req: OrderRequest)
    requires AllHeld(b.ledger.positions) && OpenOn(series, req.symbol, d) == None
    ensures FillAtOpen(series, cost, d, b, req) == b.(unfilled := b.unfilled + 1)
  {
  }

  lemma EffectsAppend(log: seq<Effect>, e: Effect)
    ensures forall side :: Effects(log + [e], side) == Effects(log, side) + (if e.side == side then 1 else 0)
  {
    assert (log + [e])[..|log|] == log;
  }

  lemma LogAfterFill(series: Series, cost: CostConfig, d: int, b: Book, req: OrderRequest, px: real)
    requires AllHeld(b.ledger.positions) && OpenOn(series, req.symbol, d) == Some(px)
    ensures var r := FillAtOpen(series, cost, d, b, req);
      var (after, fill) := FillSpec(b.ledger, req.(price := Some(px)), cost, Some(NowOn(d)));
      r.ledger == after
      && (if fill.None? || fill.value.skipped then r.log == b.log && r.buys == b.buys
          else r.buys == b.buys + (if req.side == Buy then 1 else 0)
               && exists held :: r.log == b.log + [Effect(d, req.symbol, req.side, held)])
  {
    hide FillSpec, OpenOn;
    var (after, fill) := FillSpec(b.ledger, req.(price := Some(px)), cost, Some(NowOn(d)));
    var r := FillAtOpen(series, cost, d, b, req);
    if fill.Some? && !fill.value.skipped {
      assert r.log == b.log + [Effect(d, req.symbol, req.side, req.symbol in after.positions)];
    }
  }

  lemma {:induction false} PendingCounts(series: Series, cost: CostConfig, d: int, b: Book, pending: seq<OrderRequest>)
    requires AllHeld(b.ledger.positions) && Counted(b)
    ensures Counted(FillPending(series, cost, d, b, pending))
  {
    hide FillAtOpen, Counted;
    if pending != [] {
      var n := |pending| - 1;
      PendingCounts(series, cost, d, b, pending[..n]);
      FillCounts(series, cost, d, FillPending(series, cost, d, b, pending[..n]), pending[n]);
    }
  }

  lemma {:induction false} PendingConserves(series: Series, cost: CostConfig, d: int, b: Book, pending: seq<OrderRequest>)
    requires AllHeld(b.ledger.positions)
    ensures Capital(FillPending(series, cost, d, b, pending).ledger) == Capital(b.ledger)
  {
    hide FillSpec, FirstOn, Bars, Capital, OpenOn;
    if pending != [] {
      var n := |pending| - 1;
      PendingConserves(series, cost, d, b, pending[..n]);
      var m := FillPending(series, cost, d, b, pending[..n]);
      match OpenOn(series, pending[n].symbol, d) {
        case None =>
        case Some(px) => FillConserves(m.ledger, pending[n].(price := Some(px)), cost, Some(NowOn(d)));
      }
    }
  }

  /**
   * The books of a replay: buys and trades count the effective fills on each side, and cash plus the positions at
   * cost is the seed plus the realised profit after every day.
   */
  lemma {:induction false} BooksCountAndConserve<S>(
    h: History, cfg: Config, tick: (S, View) -> (S, seq<OrderRequest>), svc: S, dates: seq<int>, n: nat)
    requires n <= |dates|
    ensures var b := Simulate(h, cfg, tick, svc, dates, n).book;
      Counted(b) && b.ledger.cash + BookValue(b.ledger.positions) == cfg.seed + b.ledger.realizedCum
  {
    hide FillPending, ViewOn, MarksOn, SortedSeries;
    if n <= cfg.warmup {
      assert BookValues(map[]) == map[];
    } else {
      BooksCountAndConserve(h, cfg, tick, svc, dates, n - 1);
      var was := Simulate(h, cfg, tick, svc, dates, n - 1);
      PendingCounts(SortedSeries(h), cfg.cost, dates[n - 1], was.book, was.pending);
      PendingConserves(SortedSeries(h), cfg.cost, dates[n - 1], was.book, was.pending);
    }
  }

  /** Days held are counted on the dates that have data, from the entry date. */
  lemma DaysSinceEntry(dates: seq<int>, k: nat, b: Book, s: Symbol, e: nat)
    requires StrictlySorted(dates) && e <= k < |dates| && s in b.ledger.positions && s in b.entryDay && b.entryDay[s] == dates[e]
    ensures s in DaysHeld(dates, k, b) && DaysHeld(dates, k, b)[s] == k - e
  {
    assert dates[e] in dates;
    SameDateSameIndex(dates, IndexOf(dates, dates[e]), e);
  }

  lemma SameDateSameIndex(dates: seq<int>, i: nat, e: nat)
    requires StrictlySorted(dates) && i < |dates| && e < |dates| && dates[i] == dates[e]
    ensures i == e
  {
  }
}
