/** The historical replay: point-in-time candles, next-open fills, and a tick seen as an arbitrary function. */
module Replay {
  import opened Prelude
  import opened Sorting
  import opened Orders
  import opened Paper
  import opened Exits

  datatype Bar = Bar(date: int, open: real, high: real, low: real, close: real, volume: real)

  /** Raw histories: the symbols in the order given, each with its bars in any order. */
  datatype History = History(symbols: seq<Symbol>, bars: map<Symbol, seq<Bar>>)

  type Series = map<Symbol, seq<Bar>>

  // ---------------------------------------------------------------- serving bars

  /** Place a bar after every bar that is not later: the step of a stable sort by date. */
  function Insert(b: Bar, s: seq<Bar>): seq<Bar> {
    if s == [] then [b]
    else if s[|s| - 1].date <= b.date then s + [b]
    else Insert(b, s[..|s| - 1]) + [s[|s| - 1]]
  }

  function SortBars(bars: seq<Bar>): seq<Bar> {
    if bars == [] then [] else Insert(bars[|bars| - 1], SortBars(bars[..|bars| - 1]))
  }

  function UpTo(bars: seq<Bar>, d: int): seq<Bar> {
    if bars == [] then []
    else
      var before, last := UpTo(bars[..|bars| - 1], d), bars[|bars| - 1];
      if last.date <= d then before + [last] else before
  }

  function FirstOn(bars: seq<Bar>, d: int): Option<Bar> {
    if bars == [] then None
    else
      var earlier := FirstOn(bars[..|bars| - 1], d);
      if earlier.Some? then earlier
      else if bars[|bars| - 1].date == d then Some(bars[|bars| - 1])
      else None
  }

  function SortedSeries(h: History): Series {
    map s | s in h.bars :: SortBars(h.bars[s])
  }

  function Bars(series: Series, s: Symbol): seq<Bar> {
    if s in series then series[s] else []
  }

  function Visible(series: Series, d: int): Series {
    map s | s in series :: UpTo(series[s], d)
  }

  function OpenOn(series: Series, s: Symbol, d: int): Option<real> {
    match FirstOn(Bars(series, s), d)
    case Some(b) => Some(b.open)
    case None => None
  }

  function CloseOn(series: Series, s: Symbol, d: int): Option<real> {
    match FirstOn(Bars(series, s), d)
    case Some(b) => Some(b.close)
    case None => None
  }

  /** The adapter the tick is given: it serves bars up to its cursor only. */
  class ReplayToss {
    const series: Series
    var currentDate: int

    constructor (h: History)
      ensures series == SortedSeries(h)
    {
      series := SortedSeries(h);
      currentDate := 0;
    }

    method GetCandles(s: Symbol) returns (bars: seq<Bar>)
      ensures bars == UpTo(Bars(series, s), currentDate)
    {
      bars := [];
      var all := Bars(series, s);
      for i := 0 to |all|
        invariant bars == UpTo(all[..i], currentDate)
      {
        assert all[..i + 1][..i] == all[..i];
        if all[i].date <= currentDate {
          bars := bars + [all[i]];
        }
      }
      assert all[..|all|] == all;
    }

    method FindBar(s: Symbol, d: int) returns (bar: Option<Bar>)
      ensures bar == FirstOn(Bars(series, s), d)
    {
      var all := Bars(series, s);
      for i := 0 to |all|
        invariant FirstOn(all[..i], d) == None
      {
        assert all[..i + 1][..i] == all[..i];
        if all[i].date == d {
          FirstOnPrefix(all, i + 1, d);
          return Some(all[i]);
        }
      }
      assert all[..|all|] == all;
      return None;
    }
  }

  lemma {:induction false} FirstOnPrefix(bars: seq<Bar>, n: nat, d: int)
    requires n <= |bars| && FirstOn(bars[..n], d).Some?
    ensures FirstOn(bars, d) == FirstOn(bars[..n], d)
    decreases |bars| - n
  {
    if n < |bars| {
      assert bars[..n + 1][..n] == bars[..n];
      FirstOnPrefix(bars, n + 1, d);
    } else {
      assert bars[..n] == bars;
    }
  }

  // ---------------------------------------------------------------- the simulated days

  /** What a tick is served: the visible bars, the ledger as holdings, its cash and the forced exits. */
  datatype View = View(day: int, watchlist: seq<Symbol>, candles: Series, holdings: Holdings, cash: real, forced: seq<Symbol>)

  /** An effective fill: who, when, which side, and whether the position exists afterwards. */
  datatype Effect = Effect(day: int, symbol: Symbol, side: Side, heldAfter: bool)

  /** The books kept while filling; `log` is the history of effective fills. */
  datatype Book = Book(ledger: Ledger, entryDay: map<Symbol, int>, buys: nat, unfilled: nat, log: seq<Effect>)

  /** The service's state is opaque to the replay; `generated` counts the orders the ticks produced. */
  datatype Sim<S> = Sim(
    svc: S, book: Book, pending: seq<OrderRequest>, curve: seq<(int, real, Option<real>)>, generated: nat)

  datatype Config = Config(benchmark: Option<Symbol>, seed: real, cost: CostConfig, exits: ExitConfig, warmup: nat)

  /** Simulated ticks run at the close. */
  function NowOn(d: int): Instant {
    d * MICROS_PER_DAY + MARKET_CLOSE
  }

  function Unfilled(b: Book): Book {
    b.(unfilled := b.unfilled + 1)
  }

  /** One pending order meets the day's open, or lapses. */
  function FillAtOpen(series: Series, cost: CostConfig, d: int, b: Book, req: OrderRequest): (r: Book)
    requires AllHeld(b.ledger.positions)
    ensures AllHeld(r.ledger.positions)
  {
    match OpenOn(series, req.symbol, d)
    case None => Unfilled(b)
    case Some(px) =>
      var (after, fill) := FillSpec(b.ledger, req.(price := Some(px)), cost, Some(NowOn(d)));
      if fill.None? || fill.value.skipped then Unfilled(b.(ledger := after))
      else
        var held := req.symbol in after.positions;
        var log := b.log + [Effect(d, req.symbol, req.side, held)];
        if req.side.Buy? then
          b.(ledger := after, buys := b.buys + 1, log := log,
             entryDay := if req.symbol in b.entryDay then b.entryDay else b.entryDay[req.symbol := d])
        else
          b.(ledger := after, log := log, entryDay := if held then b.entryDay else b.entryDay - {req.symbol})
  }

  function FillPending(series: Series, cost: CostConfig, d: int, b: Book, pending: seq<OrderRequest>): (r: Book)
    requires AllHeld(b.ledger.positions)
    ensures AllHeld(r.ledger.positions)
  {
    if pending == [] then b
    else FillAtOpen(series, cost, d, FillPending(series, cost, d, b, pending[..|pending| - 1]), pending[|pending| - 1])
  }

  function Watched(h: History, cfg: Config): seq<Symbol> {
    Without(h.symbols, cfg.benchmark)
  }

  function Without(symbols: seq<Symbol>, benchmark: Option<Symbol>): seq<Symbol> {
    if symbols == [] then []
    else (if Some(symbols[0]) == benchmark then [] else [symbols[0]]) + Without(symbols[1..], benchmark)
  }

  function MarksOn(series: Series, symbols: seq<Symbol>, benchmark: Option<Symbol>, d: int): map<Symbol, real> {
    map s | s in symbols + (if benchmark.Some? then [benchmark.value] else []) && CloseOn(series, s, d).Some? :: CloseOn(series, s, d).value
  }

  function IndexOf(dates: seq<int>, d: int): (i: int)
    ensures -1 <= i < |dates| && (i >= 0 ==> dates[i] == d) && (d in dates ==> i >= 0)
  {
    if dates == [] then -1
    else if dates[|dates| - 1] == d then |dates| - 1
    else IndexOf(dates[..|dates| - 1], d)
  }

  /** Trading days held, counted on the days that have data. */
  function DaysHeld(dates: seq<int>, k: nat, b: Book): map<Symbol, int> {
    map s | s in b.ledger.positions && s in b.entryDay && b.entryDay[s] in dates :: k - IndexOf(dates, b.entryDay[s])
  }

  function DatesOf(h: History): set<int> {
    set s, i | s in h.bars && 0 <= i < |h.bars[s]| :: h.bars[s][i].date
  }

  ghost function ViewOn(h: History, cfg: Config, dates: seq<int>, k: nat, b: Book): View
    requires k < |dates|
  {
    var series, d := SortedSeries(h), dates[k];
    var marks := MarksOn(series, Watched(h, cfg), cfg.benchmark, d);
    View(d, Watched(h, cfg), Visible(series, d), SyntheticHoldings(b.ledger, marks), b.ledger.cash,
         Forced(b.ledger.positions, marks, DaysHeld(dates, k, b), cfg.exits))
  }

  /** One simulated day: yesterday's orders at today's open, then a tick on today's close. */
  ghost function Day<S>(
    h: History, cfg: Config, tick: (S, View) -> (S, seq<OrderRequest>), dates: seq<int>, k: nat, sim: Sim<S>): (r: Sim<S>)
    requires k < |dates| && AllHeld(sim.book.ledger.positions)
    ensures AllHeld(r.book.ledger.positions)
  {
    var series, d := SortedSeries(h), dates[k];
    var book := FillPending(series, cfg.cost, d, sim.book, sim.pending);
    var marks := MarksOn(series, Watched(h, cfg), cfg.benchmark, d);
    var (svc, orders) := tick(sim.svc, ViewOn(h, cfg, dates, k, book));
    var bench := if cfg.benchmark.Some? then Get(marks, cfg.benchmark.value) else None;
    Sim(svc, book, orders, sim.curve + [(d, book.ledger.cash + MarkedValue(book.ledger, marks), bench)],
        sim.generated + |orders|)
  }

  function Start<S>(cfg: Config, svc: S): Sim<S> {
    Sim(svc, Book(Ledger(cfg.seed, map[], 0.0, 0), map[], 0, 0, []), [], [], 0)
  }

  /** The state after the first n dates; the warm-up dates are not simulated. */
  ghost function Simulate<S>(
    h: History, cfg: Config, tick: (S, View) -> (S, seq<OrderRequest>), svc: S, dates: seq<int>, n: nat): (r: Sim<S>)
    requires n <= |dates|
    ensures AllHeld(r.book.ledger.positions)
  {
    if n <= cfg.warmup then Start(cfg, svc)
    else Day(h, cfg, tick, dates, n - 1, Simulate(h, cfg, tick, svc, dates, n - 1))
  }
}
