/** What the report of a backtest says: its equity never goes negative, so its maximum drawdown is the largest fall. */
module Backtest {
  import opened Prelude
  import opened Sums
  import opened RealArith
  import opened Orders
  import opened Paper
  import opened PaperLaws
  import opened Replay
  import Evaluation

  ghost predicate Traded(bars: seq<Bar>) {
    forall i :: 0 <= i < |bars| ==> bars[i].open > 0.0 && bars[i].close > 0.0
  }

  /** Every bar has positive prices. */
  ghost predicate PricesArePositive(h: History) {
    forall s :: s in h.bars ==> Traded(h.bars[s])
  }

  // ---------------------------------------------------------------- prices served

  lemma {:induction false} InsertTraded(b: Bar, s: seq<Bar>)
    requires Traded([b]) && Traded(s)
    ensures Traded(Insert(b, s))
  {
    assert [b][0] == b;
    if s != [] && s[|s| - 1].date > b.date {
      InsertTraded(b, s[..|s| - 1]);
    }
  }

  lemma {:induction false} SortTraded(bars: seq<Bar>)
    requires Traded(bars)
    ensures Traded(SortBars(bars))
  {
    if bars != [] {
      SortTraded(bars[..|bars| - 1]);
      InsertTraded(bars[|bars| - 1], SortBars(bars[..|bars| - 1]));
    }
  }

  lemma {:induction false} FirstOnTraded(bars: seq<Bar>, d: int)
    requires Traded(bars)
    ensures FirstOn(bars, d).Some? ==> FirstOn(bars, d).value.open > 0.0 && FirstOn(bars, d).value.close > 0.0
  {
    if bars != [] {
      FirstOnTraded(bars[..|bars| - 1], d);
    }
  }

  lemma ServedPositive(h: History, s: Symbol, d: int)
    requires PricesArePositive(h)
    ensures OpenOn(SortedSeries(h), s, d).Some? ==> OpenOn(SortedSeries(h), s, d).value > 0.0
    ensures CloseOn(SortedSeries(h), s, d).Some? ==> CloseOn(SortedSeries(h), s, d).value > 0.0
  {
    hide Traded;
    if s in h.bars {
      SortTraded(h.bars[s]);
      FirstOnTraded(SortBars(h.bars[s]), d);
    }
  }

  // ---------------------------------------------------------------- the ledger stays solvent

  /** No debt, and no position at a negative cost. */
  ghost predicate Solvent(l: Ledger) {
    AllHeld(l.positions) && l.cash >= 0.0 && forall s :: s in l.positions ==> l.positions[s].avgCost >= 0.0
  }

  lemma BlendNonnegative(pos: Position, qty: real, total: real)
    requires pos.quantity > 0.0 && pos.avgCost >= 0.0 && qty > 0.0 && total >= 0.0
    ensures Blend(pos, qty, total).avgCost >= 0.0
  {
    ProductNonnegative(pos.quantity, pos.avgCost);
    QuotientNonnegative(pos.quantity * pos.avgCost + total, pos.quantity + qty);
  }

  lemma BuyKeepsSolvent(l: Ledger, symbol: Symbol, qty: real, price: real, cost: CostConfig, now: Option<Instant>)
    requires Solvent(l) && qty > 0.0 && price > 0.0 && SaneRates(cost)
    ensures Solvent(BuySpec(l, symbol, qty, price, cost, now).0)
  {
    hide BuyTotal, Blend;
    var total := BuyTotal(qty, price, cost);
    BuyTotalNonnegative(qty, price, cost);
    QuotientNonnegative(total, qty);
    if symbol in l.positions {
      BlendNonnegative(l.positions[symbol], qty, total);
    }
  }

  lemma SellKeepsSolvent(l: Ledger, symbol: Symbol, wanted: real, price: real, cost: CostConfig)
    requires Solvent(l) && wanted > 0.0 && price > 0.0 && SaneRates(cost)
    ensures Solvent(SellSpec(l, symbol, wanted, price, cost).0)
  {
    hide SellProceeds;
    if symbol in l.positions {
      ProceedsNonnegative(Min(wanted, l.positions[symbol].quantity), price, cost);
    }
  }

  lemma FillKeepsSolvent(l: Ledger, req: OrderRequest, cost: CostConfig, now: Option<Instant>)
    requires Solvent(l) && SaneRates(cost) && (req.price.Some? ==> req.price.value > 0.0)
    ensures Solvent(FillSpec(l, req, cost, now).0)
  {
    hide BuySpec, SellSpec, Solvent, SaneRates;
    if req.price.Some? && req.quantity.Some? && req.quantity.value > 0.0 {
      if req.side.Buy? {
        BuyKeepsSolvent(l, req.symbol, req.quantity.value, req.price.value, cost, now);
      } else {
        SellKeepsSolvent(l, req.symbol, req.quantity.value, req.price.value, cost);
      }
    }
  }

  lemma {:induction false} PendingKeepsSolvent(h: History, cost: CostConfig, d: int, b: Book, pending: seq<OrderRequest>)
    requires PricesArePositive(h) && SaneRates(cost) && Solvent(b.ledger)
    ensures Solvent(FillPending(SortedSeries(h), cost, d, b, pending).ledger)
  {
    hide FillSpec, SortedSeries, OpenOn, PricesArePositive, SaneRates;
    if pending != [] {
      var n := |pending| - 1;
      PendingKeepsSolvent(h, cost, d, b, pending[..n]);
      var before := FillPending(SortedSeries(h), cost, d, b, pending[..n]);
      ServedPositive(h, pending[n].symbol, d);
      match OpenOn(SortedSeries(h), pending[n].symbol, d) {
        case None =>
        case Some(px) => FillKeepsSolvent(before.ledger, pending[n].(price := Some(px)), cost, Some(NowOn(d)));
      }
    }
  }

  // ---------------------------------------------------------------- equity

  lemma {:induction false} SumNonnegative(m: map<int, real>)
    requires forall k :: k in m ==> m[k] >= 0.0
    ensures Sum(m) >= 0.0
    decreases |m|
  {
    if m != map[] {
      var k := PickKey(m.Keys);
      SumNonnegative(m - {k});
    }
  }

  lemma EquityNonnegative(l: Ledger, marks: map<Symbol, real>)
    requires Solvent(l) && forall s :: s in marks ==> marks[s] > 0.0
    ensures l.cash + MarkedValue(l, marks) >= 0.0
  {
    forall s | s in l.positions ensures ValueOf(l, marks, s) >= 0.0 {
      ProductNonnegative(l.positions[s].quantity, Mark(l, marks, s));
    }
    SumNonnegative(MarkedValues(l, marks));
  }

  lemma DayEquityNonnegative(h: History, cfg: Config, d: int, l: Ledger)
    requires PricesArePositive(h) && Solvent(l)
    ensures l.cash + MarkedValue(l, MarksOn(SortedSeries(h), Watched(h, cfg), cfg.benchmark, d)) >= 0.0
  {
    hide SortedSeries, CloseOn, PricesArePositive, MarkedValue, Solvent;
    var marks := MarksOn(SortedSeries(h), Watched(h, cfg), cfg.benchmark, d);
    forall s | s in marks ensures marks[s] > 0.0 {
      ServedPositive(h, s, d);
    }
    EquityNonnegative(l, marks);
  }

  ghost predicate CurveNonnegative(curve: seq<(int, real, Option<real>)>) {
    forall i :: 0 <= i < |curve| ==> curve[i].1 >= 0.0
  }

  /** With positive prices and sane rates a replay stays solvent, and no point of its equity curve is negative. */
  lemma {:induction false} EquityNeverNegative<S>(
    h: History, cfg: Config, tick: (S, View) -> (S, seq<OrderRequest>), svc: S, dates: seq<int>, n: nat)
    requires n <= |dates| && cfg.seed >= 0.0 && PricesArePositive(h) && SaneRates(cfg.cost)
    ensures var sim := Simulate(h, cfg, tick, svc, dates, n);
      Solvent(sim.book.ledger) && CurveNonnegative(sim.curve)
  {
    hide FillPending, ViewOn, MarksOn, SortedSeries, MarkedValue, PricesArePositive, SaneRates;
    if n > cfg.warmup {
      EquityNeverNegative(h, cfg, tick, svc, dates, n - 1);
      var was := Simulate(h, cfg, tick, svc, dates, n - 1);
      PendingKeepsSolvent(h, cfg.cost, dates[n - 1], was.book, was.pending);
      DayEquityNonnegative(h, cfg, dates[n - 1], FillPending(SortedSeries(h), cfg.cost, dates[n - 1], was.book, was.pending).ledger);
    }
  }

  /** The list the report's drawdown is computed from. */
  function Values(curve: seq<(int, real, Option<real>)>): (values: seq<real>)
    ensures |values| == |curve|
  {
    seq(|curve|, i requires 0 <= i < |curve| => curve[i].1)
  }

  /**
   * The drawdown reported for any backtest is its largest fall: with positive prices, sane rates and a nonnegative
   * seed no fall of the equity curve exceeds it, and some fall attains it.
   */
  lemma {:induction false} ReportedDrawdownIsLargestFall<S>(
    h: History, cfg: Config, tick: (S, View) -> (S, seq<OrderRequest>), svc: S, dates: seq<int>, n: nat)
    requires n <= |dates| && cfg.seed >= 0.0 && PricesArePositive(h) && SaneRates(cfg.cost)
    ensures var values := Values(Simulate(h, cfg, tick, svc, dates, n).curve); var mdd := Evaluation.OnePass(values).1;
      mdd >= 0.0 && Evaluation.BoundsEveryFall(values, mdd) && Evaluation.AttainedByAFall(values, mdd)
  {
    hide Simulate, PricesArePositive, SaneRates, Evaluation.OnePass, Evaluation.BoundsEveryFall, Evaluation.AttainedByAFall;
    EquityNeverNegative(h, cfg, tick, svc, dates, n);
    Evaluation.MddIsLargestFall(Values(Simulate(h, cfg, tick, svc, dates, n).curve));
  }
}
