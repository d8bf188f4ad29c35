/** What every run of the paper ledger keeps: conservation, and the exact price of a round trip. */
module PaperLaws {
  import opened Prelude
  import opened Orders
  import opened Sorting
  import opened Sums
  import opened RealArith
  import opened Paper

  datatype Timed = Timed(req: OrderRequest, now: Option<Instant>)

  function RunFills(l: Ledger, cost: CostConfig, orders: seq<Timed>): (r: Ledger)
    requires AllHeld(l.positions)
    ensures AllHeld(r.positions)
  {
    if orders == [] then l
    else
      var last := orders[|orders| - 1];
      FillSpec(RunFills(l, cost, orders[..|orders| - 1]), last.req, cost, last.now).0
  }

  /** The fill of the last order of a nonempty run. */
  function LastFill(l: Ledger, cost: CostConfig, orders: seq<Timed>): Option<Fill>
    requires AllHeld(l.positions) && orders != []
  {
    var last := orders[|orders| - 1];
    FillSpec(RunFills(l, cost, orders[..|orders| - 1]), last.req, cost, last.now).1
  }

  function IsFilledSell(fill: Option<Fill>): bool {
    fill.Some? && fill.value.side.Sell? && !fill.value.skipped
  }

  function FilledSells(l: Ledger, cost: CostConfig, orders: seq<Timed>): nat
    requires AllHeld(l.positions)
  {
    if orders == [] then 0
    else FilledSells(l, cost, orders[..|orders| - 1]) + (if IsFilledSell(LastFill(l, cost, orders)) then 1 else 0)
  }

  // ---------------------------------------------------------------- conservation

  lemma BookValuePut(positions: map<Symbol, Position>, s: Symbol, pos: Position)
    ensures BookValue(positions[s := pos])
      == BookValue(positions) + PurchaseOf(pos) - (if s in positions then PurchaseOf(positions[s]) else 0.0)
  {
    SumPut(BookValues(positions), s, PurchaseOf(pos));
    assert BookValues(positions[s := pos]) == BookValues(positions)[s := PurchaseOf(pos)];
  }

  lemma BookValueRemove(positions: map<Symbol, Position>, s: Symbol)
    requires s in positions
    ensures BookValue(positions - {s}) == BookValue(positions) - PurchaseOf(positions[s])
  {
    SumRemove(BookValues(positions), s);
    assert BookValues(positions - {s}) == BookValues(positions) - {s};
  }

  lemma BlendAddsCost(pos: Position, qty: real, total: real)
    requires pos.quantity > 0.0 && qty > 0.0
    ensures PurchaseOf(Blend(pos, qty, total)) == PurchaseOf(pos) + total
  {
  }

  lemma OpenCostsTotal(qty: real, total: real, now: Option<Instant>)
    requires qty > 0.0
    ensures PurchaseOf(Position(qty, total / qty, now)) == total
  {
  }

  lemma PartOfPosition(pos: Position, qty: real)
    ensures PurchaseOf(pos.(quantity := pos.quantity - qty)) == PurchaseOf(pos) - qty * pos.avgCost
  {
  }

  lemma WholePosition(pos: Position)
    ensures PurchaseOf(pos) == pos.quantity * pos.avgCost
  {
  }

  /** What no fill changes: cash, plus positions at cost, less the profit already realised. */
  ghost function Capital(l: Ledger): real {
    l.cash + BookValue(l.positions) - l.realizedCum
  }

  lemma BuyConserves(l: Ledger, symbol: Symbol, qty: real, price: real, cost: CostConfig, now: Option<Instant>)
    requires AllHeld(l.positions) && qty > 0.0
    ensures Capital(BuySpec(l, symbol, qty, price, cost, now).0) == Capital(l)
  {
    var total := BuyTotal(qty, price, cost);
    if total <= l.cash {
      var after := BuySpec(l, symbol, qty, price, cost, now).0;
      BookValuePut(l.positions, symbol, after.positions[symbol]);
      if symbol in l.positions {
        BlendAddsCost(l.positions[symbol], qty, total);
      } else {
        OpenCostsTotal(qty, total, now);
      }
    }
  }

  lemma SellConserves(l: Ledger, symbol: Symbol, wanted: real, price: real, cost: CostConfig)
    requires AllHeld(l.positions)
    ensures Capital(SellSpec(l, symbol, wanted, price, cost).0) == Capital(l)
  {
    hide SellProceeds, BookValue, PurchaseOf;
    if symbol in l.positions {
      var pos := l.positions[symbol];
      var qty := Min(wanted, pos.quantity);
      PartOfPosition(pos, qty);
      if pos.quantity - qty == 0.0 {
        WholePosition(pos);
      }
      if pos.quantity - qty == 0.0 {
        BookValueRemove(l.positions, symbol);
      } else {
        BookValuePut(l.positions, symbol, pos.(quantity := pos.quantity - qty));
      }
    }
  }

  lemma FillConserves(l: Ledger, req: OrderRequest, cost: CostConfig, now: Option<Instant>)
    requires AllHeld(l.positions)
    ensures Capital(FillSpec(l, req, cost, now).0) == Capital(l)
  {
    if req.price.Some? && req.quantity.Some? && req.quantity.value > 0.0 {
      if req.side.Buy? {
        BuyConserves(l, req.symbol, req.quantity.value, req.price.value, cost, now);
      } else {
        SellConserves(l, req.symbol, req.quantity.value, req.price.value, cost);
      }
    }
  }

  lemma {:induction false} RunConserves(l: Ledger, cost: CostConfig, orders: seq<Timed>)
    requires AllHeld(l.positions)
    ensures Capital(RunFills(l, cost, orders)) == Capital(l)
    ensures RunFills(l, cost, orders).tradeCount == l.tradeCount + FilledSells(l, cost, orders)
  {
    if orders != [] {
      var before, last := orders[..|orders| - 1], orders[|orders| - 1];
      RunConserves(l, cost, before);
      FillConserves(RunFills(l, cost, before), last.req, cost, last.now);
    }
  }

  ghost predicate SaleRates(cost: CostConfig) {
    cost.slippageRate <= 1.0 && cost.commissionRate + cost.sellTaxRate <= 1.0
  }

  /** Rates that cannot turn a price around, on either side. */
  ghost predicate SaneRates(cost: CostConfig) {
    SaleRates(cost) && cost.slippageRate >= -1.0 && cost.commissionRate >= -1.0
  }

  ghost predicate PricesPositive(orders: seq<Timed>) {
    forall i :: 0 <= i < |orders| && orders[i].req.price.Some? ==> orders[i].req.price.value > 0.0
  }

  lemma ProceedsNonnegative(qty: real, price: real, cost: CostConfig)
    requires qty >= 0.0 && price >= 0.0 && SaleRates(cost)
    ensures SellProceeds(qty, price, cost) >= 0.0
  {
    var fillPrice := price * (1.0 - cost.slippageRate);
    assert fillPrice >= 0.0;
    assert qty * fillPrice >= 0.0;
  }

  lemma ProductNonnegative(a: real, b: real)
    requires a >= 0.0 && b >= 0.0
    ensures a * b >= 0.0
  {
  }

  lemma QuotientNonnegative(a: real, b: real)
    requires a >= 0.0 && b > 0.0
    ensures a / b >= 0.0
  {
  }

  lemma BuyTotalNonnegative(qty: real, price: real, cost: CostConfig)
    requires qty >= 0.0 && price >= 0.0 && SaneRates(cost)
    ensures BuyTotal(qty, price, cost) >= 0.0
  {
    ProductNonnegative(price, 1.0 + cost.slippageRate);
    ProductNonnegative(qty, price * (1.0 + cost.slippageRate));
    ProductNonnegative(qty * (price * (1.0 + cost.slippageRate)), 1.0 + cost.commissionRate);
  }

  lemma {:induction false} CashStaysNonnegative(l: Ledger, cost: CostConfig, orders: seq<Timed>)
    requires AllHeld(l.positions) && l.cash >= 0.0 && SaleRates(cost) && PricesPositive(orders)
    ensures RunFills(l, cost, orders).cash >= 0.0
  {
    if orders != [] {
      var before, req := orders[..|orders| - 1], orders[|orders| - 1].req;
      CashStaysNonnegative(l, cost, before);
      var m := RunFills(l, cost, before);
      if req.price.Some? && req.quantity.Some? && req.quantity.value > 0.0 && req.symbol in m.positions {
        ProceedsNonnegative(Min(req.quantity.value, m.positions[req.symbol].quantity), req.price.value, cost);
      }
    }
  }

  /**
   * Conservation over any sequence of orders from a seed: cash plus the positions at acquisition cost is
   * the seed plus the realised profit, every stored position is held, the trade count is the number of
   * filled sells, and cash is never negative when prices are positive and sales cannot cost money.
   */
  lemma {:induction false} LedgerConservation(seed: real, cost: CostConfig, orders: seq<Timed>)
    ensures var l := RunFills(Ledger(seed, map[], 0.0, 0), cost, orders);
      l.cash + BookValue(l.positions) == seed + l.realizedCum
      && AllHeld(l.positions)
      && l.tradeCount == FilledSells(Ledger(seed, map[], 0.0, 0), cost, orders)
      && (l.positions == map[] ==> l.cash == seed + l.realizedCum)
      && (seed >= 0.0 && SaleRates(cost) && PricesPositive(orders) ==> l.cash >= 0.0)
  {
    var start := Ledger(seed, map[], 0.0, 0);
    assert BookValues(start.positions) == map[];
    RunConserves(start, cost, orders);
    var l := RunFills(start, cost, orders);
    assert l.positions == map[] ==> BookValues(l.positions) == map[];
    if seed >= 0.0 && SaleRates(cost) && PricesPositive(orders) {
      CashStaysNonnegative(start, cost, orders);
    }
  }

  lemma UnmarkedAtCost(l: Ledger, s: Symbol)
    requires s in l.positions
    ensures ValueOf(l, map[], s) == PurchaseOf(l.positions[s])
  {
  }

  /** With no prices at all, the marked equity of any run from a seed is the seed plus the realised profit. */
  lemma UnmarkedEquity(seed: real, cost: CostConfig, orders: seq<Timed>)
    ensures var l := RunFills(Ledger(seed, map[], 0.0, 0), cost, orders);
      l.cash + MarkedValue(l, map[]) == seed + l.realizedCum
  {
    hide RunFills, PurchaseOf;
    LedgerConservation(seed, cost, orders);
    var l := RunFills(Ledger(seed, map[], 0.0, 0), cost, orders);
    forall s | s in l.positions ensures ValueOf(l, map[], s) == PurchaseOf(l.positions[s]) {
      UnmarkedAtCost(l, s);
    }
    assert MarkedValues(l, map[]) == BookValues(l.positions);
  }

  // ---------------------------------------------------------------- the price of a round trip

  /** Every priced order on a symbol carries that symbol's one price. */
  ghost predicate ConstantPrices(px: Symbol -> real, orders: seq<Timed>) {
    forall i :: 0 <= i < |orders| && orders[i].req.price.Some? ==> orders[i].req.price.value == px(orders[i].req.symbol)
  }

  function SaleValue(px: Symbol -> real, fill: Option<Fill>): real {
    if IsFilledSell(fill) then fill.value.quantity * px(fill.value.symbol) else 0.0
  }

  /** The value of everything sold, at the constant prices. */
  function SoldTurnover(px: Symbol -> real, l: Ledger, cost: CostConfig, orders: seq<Timed>): real
    requires AllHeld(l.positions)
  {
    if orders == [] then 0.0
    else
      SoldTurnover(px, l, cost, orders[..|orders| - 1]) + SaleValue(px, LastFill(l, cost, orders))
  }

  ghost predicate CostsArePrices(px: Symbol -> real, l: Ledger, cost: CostConfig) {
    forall s :: s in l.positions ==> l.positions[s].avgCost == px(s) * cost.BuyFactor()
  }

  /** Cost actually lost on one unit of turnover; the product term is what the gate's linear rate leaves out. */
  function UnitLoss(cost: CostConfig): real {
    cost.RoundTripRate() - cost.slippageRate * cost.sellTaxRate
  }

  lemma FactorsDiffer(cost: CostConfig)
    ensures cost.SellFactor() - cost.BuyFactor() == -UnitLoss(cost)
  {
    var c, s, t := cost.commissionRate, cost.slippageRate, cost.sellTaxRate;
    assert (1.0 - s) * (1.0 - c - t) == 1.0 - c - t - s + s * c + s * t;
    assert (1.0 + s) * (1.0 + c) == 1.0 + c + s + s * c;
  }

  lemma BuyTotalIsFactor(qty: real, price: real, cost: CostConfig)
    ensures BuyTotal(qty, price, cost) == qty * (price * cost.BuyFactor())
  {
    var s, c := 1.0 + cost.slippageRate, 1.0 + cost.commissionRate;
    assert (price * s) * c == price * (s * c);
    assert qty * (price * s) * c == qty * ((price * s) * c);
  }

  lemma SaleAtCostPrice(qty: real, price: real, cost: CostConfig)
    ensures SellProceeds(qty, price, cost) - qty * (price * cost.BuyFactor()) == -(qty * price) * UnitLoss(cost)
  {
    var s, c := 1.0 - cost.slippageRate, 1.0 - cost.commissionRate - cost.sellTaxRate;
    assert (price * s) * c == price * (s * c);
    assert qty * (price * s) * c == qty * ((price * s) * c);
    FactorsDiffer(cost);
    var a, b := cost.SellFactor(), cost.BuyFactor();
    assert qty * (price * a) - qty * (price * b) == qty * price * (a - b);
  }

  lemma BlendAtSamePrice(pos: Position, qty: real, unit: real)
    requires pos.quantity > 0.0 && qty > 0.0 && pos.avgCost == unit
    ensures Blend(pos, qty, qty * unit).avgCost == unit
  {
    CancelDiv(pos.quantity * unit + qty * unit, unit, pos.quantity + qty);
  }

  lemma BuyKeepsCosts(px: Symbol -> real, l: Ledger, symbol: Symbol, qty: real, cost: CostConfig, now: Option<Instant>)
    requires AllHeld(l.positions) && CostsArePrices(px, l, cost) && qty > 0.0
    ensures CostsArePrices(px, BuySpec(l, symbol, qty, px(symbol), cost, now).0, cost)
  {
    var unit := px(symbol) * cost.BuyFactor();
    BuyTotalIsFactor(qty, px(symbol), cost);
    if symbol in l.positions {
      BlendAtSamePrice(l.positions[symbol], qty, unit);
    } else {
      CancelDiv(qty * unit, unit, qty);
    }
  }

  lemma SellRealizesUnitLoss(px: Symbol -> real, l: Ledger, symbol: Symbol, wanted: real, cost: CostConfig)
    requires AllHeld(l.positions) && CostsArePrices(px, l, cost)
    ensures var (after, fill) := SellSpec(l, symbol, wanted, px(symbol), cost);
      CostsArePrices(px, after, cost)
      && after.realizedCum == l.realizedCum - (if fill.skipped then 0.0 else fill.quantity * px(symbol)) * UnitLoss(cost)
  {
    hide SellProceeds, UnitLoss, CostConfig.BuyFactor;
    if symbol in l.positions {
      SaleAtCostPrice(Min(wanted, l.positions[symbol].quantity), px(symbol), cost);
    }
  }

  /**
   * The price of round trips: at constant prices, any sequence of buys and partial sells from an empty
   * ledger realises exactly minus the turnover sold times (round-trip rate - slippage * sell tax).
   */
  lemma {:induction false} RoundTripCost(px: Symbol -> real, seed: real, cost: CostConfig, orders: seq<Timed>)
    requires ConstantPrices(px, orders)
    ensures var start := Ledger(seed, map[], 0.0, 0);
      CostsArePrices(px, RunFills(start, cost, orders), cost)
      && RunFills(start, cost, orders).realizedCum == -SoldTurnover(px, start, cost, orders) * UnitLoss(cost)
  {
    hide FillSpec, UnitLoss, SaleValue;
    var start := Ledger(seed, map[], 0.0, 0);
    if orders != [] {
      var before, last := orders[..|orders| - 1], orders[|orders| - 1];
      RoundTripCost(px, seed, cost, before);
      RoundTripStep(px, RunFills(start, cost, before), cost, last);
      LossAdds(SoldTurnover(px, start, cost, before), SaleValue(px, LastFill(start, cost, orders)), UnitLoss(cost));
    }
  }

  lemma LossAdds(a: real, b: real, u: real)
    ensures -(a + b) * u == -a * u - b * u
  {
  }

  lemma {:induction false} RoundTripStep(px: Symbol -> real, l: Ledger, cost: CostConfig, order: Timed)
    requires AllHeld(l.positions) && CostsArePrices(px, l, cost)
    requires order.req.price.Some? ==> order.req.price.value == px(order.req.symbol)
    ensures var (after, fill) := FillSpec(l, order.req, cost, order.now);
      CostsArePrices(px, after, cost)
      && after.realizedCum
        == l.realizedCum - SaleValue(px, fill) * UnitLoss(cost)
  {
    hide UnitLoss, CostsArePrices, AllHeld;
    var req := order.req;
    if req.price.Some? && req.quantity.Some? && req.quantity.value > 0.0 {
      if req.side.Buy? {
        BuyKeepsCosts(px, l, req.symbol, req.quantity.value, cost, order.now);
      } else {
        SellRealizesUnitLoss(px, l, req.symbol, req.quantity.value, cost);
      }
    }
  }

  lemma FilledSellQuantity(l: Ledger, cost: CostConfig, order: Timed)
    requires AllHeld(l.positions) && IsFilledSell(FillSpec(l, order.req, cost, order.now).1)
    ensures FillSpec(l, order.req, cost, order.now).1.value.quantity > 0.0
  {
    hide SellProceeds, BuyTotal, Blend;
  }

  lemma SaleNonnegative(px: Symbol -> real, l: Ledger, cost: CostConfig, order: Timed)
    requires AllHeld(l.positions) && forall s :: px(s) >= 0.0
    ensures SaleValue(px, FillSpec(l, order.req, cost, order.now).1) >= 0.0
  {
    hide FillSpec;
    var fill := FillSpec(l, order.req, cost, order.now).1;
    if IsFilledSell(fill) {
      FilledSellQuantity(l, cost, order);
      MulMono(0.0, fill.value.quantity, px(fill.value.symbol));
    }
  }

  lemma {:induction false} TurnoverNonnegative(px: Symbol -> real, l: Ledger, cost: CostConfig, orders: seq<Timed>)
    requires AllHeld(l.positions) && forall s :: px(s) >= 0.0
    ensures SoldTurnover(px, l, cost, orders) >= 0.0
  {
    hide FillSpec, SaleValue;
    if orders != [] {
      var before, last := orders[..|orders| - 1], orders[|orders| - 1];
      TurnoverNonnegative(px, l, cost, before);
      SaleNonnegative(px, RunFills(l, cost, before), cost, last);
    }
  }

  /** The entry gate's linear round-trip rate never understates what the ledger really loses on what it sold. */
  lemma {:induction false} GateRateIsSafe(px: Symbol -> real, seed: real, cost: CostConfig, orders: seq<Timed>)
    requires ConstantPrices(px, orders) && forall s :: px(s) >= 0.0
    requires cost.slippageRate >= 0.0 && cost.sellTaxRate >= 0.0
    ensures var start := Ledger(seed, map[], 0.0, 0);
      -RunFills(start, cost, orders).realizedCum <= SoldTurnover(px, start, cost, orders) * cost.RoundTripRate()
  {
    hide FillSpec, UnitLoss, SaleValue, CostConfig.RoundTripRate;
    var start := Ledger(seed, map[], 0.0, 0);
    RoundTripCost(px, seed, cost, orders);
    TurnoverNonnegative(px, start, cost, orders);
    UnitLossWithinRate(cost);
    LossBound(RunFills(start, cost, orders).realizedCum, SoldTurnover(px, start, cost, orders), UnitLoss(cost), cost.RoundTripRate());
  }

  lemma UnitLossWithinRate(cost: CostConfig)
    requires cost.slippageRate >= 0.0 && cost.sellTaxRate >= 0.0
    ensures UnitLoss(cost) <= cost.RoundTripRate()
  {
  }

  lemma LossBound(realized: real, turnover: real, unit: real, rate: real)
    requires realized == -turnover * unit && turnover >= 0.0 && unit <= rate
    ensures -realized <= turnover * rate
  {
    MulMono(unit, rate, turnover);
  }

  // ---------------------------------------------------------------- what one fill does

  /** A buy is skipped exactly when it cannot be paid; otherwise shares come in, their whole cost goes out and into the book. */
  lemma {:induction false} BuyFilled(l: Ledger, symbol: Symbol, qty: real, price: real, cost: CostConfig, now: Option<Instant>)
    requires AllHeld(l.positions) && qty > 0.0
    ensures var (after, fill) := BuySpec(l, symbol, qty, price, cost, now);
      var total := qty * (price * cost.BuyFactor());
      (fill.skipped <==> total > l.cash)
      && fill.symbol == symbol && fill.side == Buy && fill.quantity == qty && fill.realized == None
      && fill.fillPrice == price * (1.0 + cost.slippageRate)
      && fill.cashDelta == after.cash - l.cash && after.realizedCum == l.realizedCum && after.tradeCount == l.tradeCount
      && after.cash == l.cash - (if fill.skipped then 0.0 else total)
      && (if fill.skipped then after.positions == l.positions
          else
            symbol in after.positions && after.positions - {symbol} == l.positions - {symbol}
            && var was := if symbol in l.positions then l.positions[symbol] else Position(0.0, 0.0, now);
               after.positions[symbol].quantity == was.quantity + qty
               && PurchaseOf(after.positions[symbol]) == PurchaseOf(was) + total
               && after.positions[symbol].openedAt == was.openedAt)
  {
    hide BuyTotal, Blend, PurchaseOf, CostConfig.BuyFactor;
    BuyTotalIsFactor(qty, price, cost);
    NothingPurchased(now);
    var total := BuyTotal(qty, price, cost);
    if total <= l.cash {
      if symbol in l.positions {
        BlendAddsCost(l.positions[symbol], qty, total);
        BlendShape(l.positions[symbol], qty, total);
      } else {
        OpenCostsTotal(qty, total, now);
      }
    }
  }

  lemma NothingPurchased(now: Option<Instant>)
    ensures PurchaseOf(Position(0.0, 0.0, now)) == 0.0
  {
  }

  lemma BlendShape(pos: Position, qty: real, total: real)
    requires pos.quantity > 0.0 && qty > 0.0
    ensures Blend(pos, qty, total).quantity == pos.quantity + qty && Blend(pos, qty, total).openedAt == pos.openedAt
  {
  }

  lemma ProceedsAreFactor(qty: real, price: real, cost: CostConfig)
    ensures SellProceeds(qty, price, cost) == qty * (price * cost.SellFactor())
  {
    var s, c := 1.0 - cost.slippageRate, 1.0 - cost.commissionRate - cost.sellTaxRate;
    assert (price * s) * c == price * (s * c);
    assert qty * (price * s) * c == qty * ((price * s) * c);
  }

  /** A sell is skipped exactly when nothing is held; otherwise no more than is held goes out, and its net price comes in. */
  lemma {:induction false} SellFilled(l: Ledger, symbol: Symbol, wanted: real, price: real, cost: CostConfig)
    requires AllHeld(l.positions) && wanted > 0.0
    ensures var (after, fill) := SellSpec(l, symbol, wanted, price, cost);
      (fill.skipped <==> symbol !in l.positions) && fill.symbol == symbol && fill.side == Sell
      && fill.cashDelta == after.cash - l.cash
      && (fill.skipped ==> after == l && fill.realized == None)
      && (!fill.skipped ==>
            var held := l.positions[symbol]; var qty := if wanted <= held.quantity then wanted else held.quantity;
            fill.quantity == qty && fill.fillPrice == price * (1.0 - cost.slippageRate)
            && after.cash == l.cash + qty * (price * cost.SellFactor())
            && fill.realized == Some(after.realizedCum - l.realizedCum)
            && after.realizedCum == l.realizedCum + (after.cash - l.cash) - qty * held.avgCost
            && after.tradeCount == l.tradeCount + 1
            && after.positions - {symbol} == l.positions - {symbol}
            && (symbol in after.positions <==> wanted < held.quantity)
            && (symbol in after.positions ==> after.positions[symbol] == held.(quantity := held.quantity - wanted)))
  {
    hide SellProceeds, CostConfig.SellFactor;
    if symbol in l.positions {
      ProceedsAreFactor(Min(wanted, l.positions[symbol].quantity), price, cost);
    }
  }

  // ---------------------------------------------------------------- what a mark does

  lemma MarkedValueWithout(l: Ledger, marks: map<Symbol, real>, s: Symbol)
    requires s in l.positions
    ensures MarkedValue(l, marks) == ValueOf(l, marks, s) + Sum(MarkedValues(l, marks) - {s})
  {
    SumRemove(MarkedValues(l, marks), s);
  }

  lemma SameMark(l: Ledger, marks: map<Symbol, real>, s: Symbol, a: real, k: Symbol)
    requires k in l.positions && k != s
    ensures ValueOf(l, marks[s := a], k) == ValueOf(l, marks - {s}, k)
  {
    var high, none := marks[s := a], marks - {s};
    assert k in none <==> k in marks;
    assert k in high <==> k in marks;
    assert Mark(l, high, k) == Mark(l, none, k);
  }

  lemma OthersUnmoved(l: Ledger, marks: map<Symbol, real>, s: Symbol, a: real)
    requires s in l.positions
    ensures MarkedValues(l, marks[s := a]) - {s} == MarkedValues(l, marks - {s}) - {s}
  {
    hide ValueOf;
    var values, others := MarkedValues(l, marks[s := a]) - {s}, MarkedValues(l, marks - {s}) - {s};
    forall k | k in others ensures k in values && values[k] == others[k] {
      SameMark(l, marks, s, a, k);
    }
    assert values.Keys == others.Keys;
  }

  /** The value of a ledger follows each mark with the quantity held; a zero mark counts as none. */
  lemma {:induction false} MarkMovesValue(l: Ledger, marks: map<Symbol, real>, s: Symbol, a: real)
    requires s in l.positions
    ensures MarkedValue(l, marks[s := a])
      == MarkedValue(l, marks - {s}) + l.positions[s].quantity * (if a == 0.0 then 0.0 else a - l.positions[s].avgCost)
  {
    hide MarkedValues, MarkedValue;
    MarkedValueWithout(l, marks[s := a], s);
    MarkedValueWithout(l, marks - {s}, s);
    OthersUnmoved(l, marks, s, a);
    var q, c := l.positions[s].quantity, l.positions[s].avgCost;
    assert q * (a - c) == q * a - q * c;
  }

  // ---------------------------------------------------------------- what the holdings show

  function ItemValues(items: seq<Item>): real {
    if items == [] then 0.0 else ItemValues(items[..|items| - 1]) + items[|items| - 1].value
  }

  function ItemPurchases(items: seq<Item>): real {
    if items == [] then 0.0 else ItemPurchases(items[..|items| - 1]) + items[|items| - 1].purchase
  }

  lemma ItemCounts(l: Ledger, marks: map<Symbol, real>, s: Symbol)
    requires s in l.positions
    ensures ItemOf(l, marks, s).value == Lookup(MarkedValues(l, marks), s)
    ensures ItemOf(l, marks, s).purchase == Lookup(BookValues(l.positions), s)
  {
  }

  lemma {:induction false} ItemsAddUp(l: Ledger, marks: map<Symbol, real>, keys: seq<Symbol>)
    requires forall i :: 0 <= i < |keys| ==> keys[i] in l.positions
    ensures ItemValues(ItemsAlong(l, marks, keys)) == SumAlong(MarkedValues(l, marks), keys)
    ensures ItemPurchases(ItemsAlong(l, marks, keys)) == SumAlong(BookValues(l.positions), keys)
  {
    hide ValueOf, PurchaseOf, ItemOf, MarkedValues, BookValues;
    if keys != [] {
      var n := |keys| - 1;
      ItemsAddUp(l, marks, keys[..n]);
      ItemCounts(l, marks, keys[n]);
      var items := ItemsAlong(l, marks, keys);
      assert items == ItemsAlong(l, marks, keys[..n]) + [ItemOf(l, marks, keys[n])];
      assert items[..n] == ItemsAlong(l, marks, keys[..n]);
    }
  }

  /** One item: quantity, cost and price multiply and compare as they should, and the price is the mark or the cost. */
  ghost predicate TellsPosition(item: Item, l: Ledger, marks: map<Symbol, real>) {
    item.symbol in l.positions
    && (var pos := l.positions[item.symbol];
        item.quantity == pos.quantity && item.averagePurchasePrice == pos.avgCost
        && item.purchase == item.quantity * item.averagePurchasePrice && item.value == item.quantity * item.lastPrice
        && (item.symbol in marks && marks[item.symbol] != 0.0 ==> item.lastPrice == marks[item.symbol])
        && (item.symbol !in marks || marks[item.symbol] == 0.0 ==> item.lastPrice == pos.avgCost)
        && (item.purchase > 0.0 ==> item.plRate == (item.value - item.purchase) / item.purchase)
        && (item.purchase <= 0.0 ==> item.plRate == 0.0))
  }

  lemma ItemTells(l: Ledger, marks: map<Symbol, real>, s: Symbol)
    requires s in l.positions
    ensures ItemOf(l, marks, s).symbol == s && TellsPosition(ItemOf(l, marks, s), l, marks)
  {
  }

  /** The holdings a tick is shown: one truthful item per position, in order, with totals that are the sums over the items. */
  lemma {:induction false} HoldingsAddUp(l: Ledger, marks: map<Symbol, real>)
    ensures var h := SyntheticHoldings(l, marks);
      h.marketValue == ItemValues(h.items) && h.totalPurchase == ItemPurchases(h.items) && h.dailyPlRate == None
      && |h.items| == |l.positions|
      && (forall i :: 0 <= i < |h.items| ==> TellsPosition(h.items[i], l, marks))
      && (forall i, j :: 0 <= i < j < |h.items| ==> h.items[i].symbol < h.items[j].symbol)
  {
    hide Sorted, MarkedValues, BookValues, ItemValues, ItemPurchases, SumAlong, MarkedValue, BookValue, TellsPosition, ItemOf, ItemsAlong;
    var keys := Sorted(l.positions.Keys);
    forall i | 0 <= i < |keys| ensures keys[i] in l.positions && ItemOf(l, marks, keys[i]).symbol == keys[i]
      && TellsPosition(ItemOf(l, marks, keys[i]), l, marks)
    {
      assert keys[i] in keys;
      ItemTells(l, marks, keys[i]);
    }
    TotalsAlong(l, marks, keys);
    ItemsAddUp(l, marks, keys);
    assert |l.positions.Keys| == |l.positions|;
  }

  lemma TotalsAlong(l: Ledger, marks: map<Symbol, real>, keys: seq<Symbol>)
    requires StrictlySorted(keys) && forall s :: s in keys <==> s in l.positions
    ensures MarkedValue(l, marks) == SumAlong(MarkedValues(l, marks), keys)
    ensures BookValue(l.positions) == SumAlong(BookValues(l.positions), keys)
  {
    hide SumAlong;
    SumAlongIsSum(MarkedValues(l, marks), keys);
    SumAlongIsSum(BookValues(l.positions), keys);
  }
}
