/** Filling the orders of a tick on paper: only accepted ones, and for the money they stand for. */
module PaperFills {
  import opened Prelude
  import opened RealArith
  import opened Orders
  import opened Paper
  import opened PaperLaws
  import opened Exits
  import opened Pipeline

  /** Fill the intended orders one after the other; rejected ones are passed over. */
  function FillOrders(l: Ledger, cost: CostConfig, orders: seq<OrderResult>, now: Instant): (r: Ledger)
    requires AllHeld(l.positions)
    ensures AllHeld(r.positions)
  {
    if orders == [] then l
    else
      var m, last := FillOrders(l, cost, orders[..|orders| - 1], now), orders[|orders| - 1];
      if last.status.DryRun? then FillSpec(m, last.request, cost, Some(now)).0 else m
  }

  lemma FillTouchesOneSymbol(l: Ledger, req: OrderRequest, cost: CostConfig, now: Option<Instant>, s: Symbol)
    requires AllHeld(l.positions) && s != req.symbol
    ensures Get(FillSpec(l, req, cost, now).0.positions, s) == Get(l.positions, s)
  {
    hide BuyTotal, SellProceeds, Blend;
  }

  // ---------------------------------------------------------------- what is not accepted is not filled

  ghost predicate AcceptedFor(orders: seq<OrderResult>, s: Symbol) {
    exists i :: 0 <= i < |orders| && orders[i].status == DryRun && orders[i].request.symbol == s
  }

  /** A tick without an accepted order leaves the ledger as it was. */
  lemma {:induction false} NothingAcceptedNothingFilled(l: Ledger, cost: CostConfig, orders: seq<OrderResult>, now: Instant)
    requires AllHeld(l.positions) && forall i :: 0 <= i < |orders| ==> orders[i].status != DryRun
    ensures FillOrders(l, cost, orders, now) == l
  {
    if orders != [] {
      NothingAcceptedNothingFilled(l, cost, orders[..|orders| - 1], now);
    }
  }

  lemma AcceptedEarlier(orders: seq<OrderResult>, n: nat, s: Symbol)
    requires n <= |orders| && AcceptedFor(orders[..n], s)
    ensures AcceptedFor(orders, s)
  {
    var i :| 0 <= i < n && orders[..n][i].status == DryRun && orders[..n][i].request.symbol == s;
    assert orders[i].status == DryRun && orders[i].request.symbol == s;
  }

  /** A symbol without an accepted order keeps its position, whatever was rejected. */
  lemma {:induction false} UnacceptedKeepsPosition(l: Ledger, cost: CostConfig, orders: seq<OrderResult>, now: Instant, s: Symbol)
    requires AllHeld(l.positions) && !AcceptedFor(orders, s)
    ensures Get(FillOrders(l, cost, orders, now).positions, s) == Get(l.positions, s)
  {
    hide FillSpec;
    if orders != [] {
      var n := |orders| - 1;
      if AcceptedFor(orders[..n], s) {
        AcceptedEarlier(orders, n, s);
      }
      UnacceptedKeepsPosition(l, cost, orders[..n], now, s);
      if orders[n].status == DryRun {
        FillTouchesOneSymbol(FillOrders(l, cost, orders[..n], now), orders[n].request, cost, Some(now), s);
      }
    }
  }

  // ---------------------------------------------------------------- the money

  /** Every order that was accepted states a positive quantity and a positive price, as every order of a tick does. */
  ghost predicate Priced(o: OrderResult) {
    o.status == DryRun || o.status == Submitted ==>
      o.request.orderAmount.None? && o.request.quantity.Some? && o.request.quantity.value > 0.0
      && o.request.price.Some? && o.request.price.value > 0.0
  }

  ghost predicate AllPriced(orders: seq<OrderResult>) {
    forall i :: 0 <= i < |orders| ==> Priced(orders[i])
  }

  lemma BuyFactorNonnegative(cost: CostConfig)
    requires SaneRates(cost)
    ensures cost.BuyFactor() >= 0.0
  {
    ProductNonnegative(1.0 + cost.slippageRate, 1.0 + cost.commissionRate);
  }

  lemma SellFactorNonnegative(cost: CostConfig)
    requires SaneRates(cost)
    ensures cost.SellFactor() >= 0.0
  {
    ProductNonnegative(1.0 - cost.slippageRate, 1.0 - cost.commissionRate - cost.sellTaxRate);
  }

  lemma Regroup(qty: real, price: real, f: real)
    ensures qty * (price * f) == (qty * price) * f
  {
  }

  lemma SumTimes(a: real, b: real, f: real)
    ensures (a + b) * f == a * f + b * f
  {
  }

  /** One accepted order: a buy takes at most its money times the buy factor, and a sale takes nothing. */
  lemma FillTakesAtMost(l: Ledger, o: OrderResult, cost: CostConfig, now: Instant)
    requires AllHeld(l.positions) && SaneRates(cost) && Priced(o) && o.status == DryRun
    ensures l.cash - FillSpec(l, o.request, cost, Some(now)).0.cash <= Spends(o) * cost.BuyFactor()
  {
    hide BuySpec, SellSpec, SaneRates, CostConfig.BuyFactor, CostConfig.SellFactor;
    var qty, price := o.request.quantity.value, o.request.price.value;
    BuyFactorNonnegative(cost);
    SellFactorNonnegative(cost);
    if o.request.side == Buy {
      BuyFilled(l, o.request.symbol, qty, price, cost, Some(now));
      Regroup(qty, price, cost.BuyFactor());
      ProductNonnegative(qty, price);
      ProductNonnegative(qty * price, cost.BuyFactor());
    } else {
      SellFilled(l, o.request.symbol, qty, price, cost);
      if o.request.symbol in l.positions {
        var sold := if qty <= l.positions[o.request.symbol].quantity then qty else l.positions[o.request.symbol].quantity;
        ProductNonnegative(price, cost.SellFactor());
        ProductNonnegative(sold, price * cost.SellFactor());
      }
    }
  }

  /** The cash a tick takes from the ledger is at most the money of its accepted buys, with their costs. */
  lemma {:induction false} CashTakenBounded(l: Ledger, cost: CostConfig, orders: seq<OrderResult>, now: Instant)
    requires AllHeld(l.positions) && SaneRates(cost) && AllPriced(orders)
    ensures l.cash - FillOrders(l, cost, orders, now).cash <= Spent(orders) * cost.BuyFactor()
  {
    hide FillSpec, Spends, SaneRates, Priced, CostConfig.BuyFactor;
    if orders != [] {
      var n := |orders| - 1;
      CashTakenBounded(l, cost, orders[..n], now);
      SumTimes(Spent(orders[..n]), Spends(orders[n]), cost.BuyFactor());
      if orders[n].status == DryRun {
        FillTakesAtMost(FillOrders(l, cost, orders[..n], now), orders[n], cost, now);
      } else {
        BuyFactorNonnegative(cost);
        SpendsNonnegative(orders[n]);
        ProductNonnegative(Spends(orders[n]), cost.BuyFactor());
      }
    }
  }

  lemma SpendsNonnegative(o: OrderResult)
    requires Priced(o)
    ensures Spends(o) >= 0.0
  {
    if o.status == DryRun || o.status == Submitted {
      ProductNonnegative(o.request.quantity.value, o.request.price.value);
    }
  }

  // ---------------------------------------------------------------- exactly, when everything can be paid

  /** What one accepted sale of a position held at the start brings in. */
  function Brings(held: Option<Position>, o: OrderResult, cost: CostConfig): real {
    if held.None? then 0.0
    else Min(o.request.quantity.GetOr(0.0), held.value.quantity) * (o.request.price.GetOr(0.0) * cost.SellFactor())
  }

  /** What the accepted sales of positions held at the start bring in, each symbol being ordered once. */
  function Received(l: Ledger, cost: CostConfig, orders: seq<OrderResult>): real {
    if orders == [] then 0.0
    else
      var o := orders[|orders| - 1];
      Received(l, cost, orders[..|orders| - 1])
      + (if o.status == DryRun && o.request.side == Sell then Brings(Get(l.positions, o.request.symbol), o, cost) else 0.0)
  }

  ghost predicate OncePerSymbolOrdered(orders: seq<OrderResult>) {
    forall i, j :: 0 <= i < j < |orders| && orders[i].status == DryRun && orders[j].status == DryRun ==>
      orders[i].request.symbol != orders[j].request.symbol
  }

  lemma BringsNonnegative(held: Option<Position>, o: OrderResult, cost: CostConfig)
    requires SaneRates(cost) && Priced(o) && o.status == DryRun && (held.Some? ==> held.value.quantity > 0.0)
    ensures Brings(held, o, cost) >= 0.0
  {
    hide SaneRates, CostConfig.SellFactor;
    SellFactorNonnegative(cost);
    if held.Some? {
      ProductNonnegative(o.request.price.value, cost.SellFactor());
      ProductNonnegative(Min(o.request.quantity.value, held.value.quantity), o.request.price.value * cost.SellFactor());
    }
  }

  lemma {:induction false} ReceivedNonnegative(l: Ledger, cost: CostConfig, orders: seq<OrderResult>)
    requires AllHeld(l.positions) && SaneRates(cost) && AllPriced(orders)
    ensures Received(l, cost, orders) >= 0.0
  {
    hide SaneRates, Brings, Priced;
    if orders != [] {
      var o := orders[|orders| - 1];
      ReceivedNonnegative(l, cost, orders[..|orders| - 1]);
      if o.status == DryRun {
        BringsNonnegative(Get(l.positions, o.request.symbol), o, cost);
      }
    }
  }

  /** An amount of money with the costs of buying. */
  function Charged(money: real, cost: CostConfig): real {
    money * cost.BuyFactor()
  }

  lemma ChargedAdds(a: real, b: real, cost: CostConfig)
    ensures Charged(a + b, cost) == Charged(a, cost) + Charged(b, cost)
  {
  }

  lemma ChargedNonnegative(o: OrderResult, cost: CostConfig)
    requires SaneRates(cost) && Priced(o)
    ensures Charged(Spends(o), cost) >= 0.0
  {
    hide SaneRates, Spends, CostConfig.BuyFactor;
    SpendsNonnegative(o);
    BuyFactorNonnegative(cost);
    ProductNonnegative(Spends(o), cost.BuyFactor());
  }

  lemma ChargedNothing(cost: CostConfig)
    ensures Charged(0.0, cost) == 0.0
  {
  }

  /** One more accepted buy that can be paid takes its money with costs. */
  lemma BuyTakesCharged(m: Ledger, o: OrderResult, cost: CostConfig, now: Instant)
    requires AllHeld(m.positions) && SaneRates(cost) && Priced(o) && o.status == DryRun && o.request.side == Buy
    requires m.cash >= Charged(Spends(o), cost)
    ensures FillSpec(m, o.request, cost, Some(now)).0.cash == m.cash - Charged(Spends(o), cost)
  {
    hide BuySpec, SellSpec, SaneRates, CostConfig.BuyFactor;
    var qty, price := o.request.quantity.value, o.request.price.value;
    BuyFilled(m, o.request.symbol, qty, price, cost, Some(now));
    Regroup(qty, price, cost.BuyFactor());
  }

  lemma SaleBrings(m: Ledger, o: OrderResult, cost: CostConfig, now: Instant)
    requires AllHeld(m.positions) && Priced(o) && o.status == DryRun && o.request.side == Sell
    ensures FillSpec(m, o.request, cost, Some(now)).0.cash == m.cash + Brings(Get(m.positions, o.request.symbol), o, cost)
  {
    hide BuySpec, SellSpec, CostConfig.SellFactor;
    SellFilled(m, o.request.symbol, o.request.quantity.value, o.request.price.value, cost);
  }

  lemma SaleSpendsNothing(o: OrderResult)
    requires o.request.side == Sell || (o.status != DryRun && o.status != Submitted)
    ensures Spends(o) == 0.0
  {
  }

  lemma OneMoreFilled(l: Ledger, cost: CostConfig, orders: seq<OrderResult>, now: Instant)
    requires orders != [] && AllHeld(l.positions) && SaneRates(cost) && AllPriced(orders) && OncePerSymbolOrdered(orders)
    requires orders[|orders| - 1].status != Submitted
    requires FillOrders(l, cost, orders[..|orders| - 1], now).cash >= Charged(Spends(orders[|orders| - 1]), cost)
    ensures var before, o := orders[..|orders| - 1], orders[|orders| - 1];
      FillOrders(l, cost, orders, now).cash == FillOrders(l, cost, before, now).cash
        - Charged(Spends(o), cost) + (Received(l, cost, orders) - Received(l, cost, before))
  {
    hide FillSpec, SaneRates, Charged, Brings, Spends, Priced;
    var n := |orders| - 1;
    var o, m := orders[n], FillOrders(l, cost, orders[..n], now);
    ChargedNothing(cost);
    if o.status == DryRun && o.request.side == Buy {
      BuyTakesCharged(m, o, cost, now);
    } else if o.status == DryRun {
      assert !AcceptedFor(orders[..n], o.request.symbol);
      UnacceptedKeepsPosition(l, cost, orders[..n], now, o.request.symbol);
      SaleBrings(m, o, cost, now);
      SaleSpendsNothing(o);
    } else {
      SaleSpendsNothing(o);
    }
  }

  lemma {:induction false} ChargedExactly(l: Ledger, cost: CostConfig, orders: seq<OrderResult>, now: Instant)
    requires AllHeld(l.positions) && SaneRates(cost) && AllPriced(orders) && OncePerSymbolOrdered(orders)
    requires forall i :: 0 <= i < |orders| ==> orders[i].status != Submitted
    requires Charged(Spent(orders), cost) <= l.cash
    ensures FillOrders(l, cost, orders, now).cash == l.cash - Charged(Spent(orders), cost) + Received(l, cost, orders)
  {
    hide FillSpec, Spends, SaneRates, Priced, Charged;
    if orders == [] {
      ChargedNothing(cost);
    } else {
      var n := |orders| - 1;
      ChargedNonnegative(orders[n], cost);
      ChargedAdds(Spent(orders[..n]), Spends(orders[n]), cost);
      ChargedExactly(l, cost, orders[..n], now);
      ReceivedNonnegative(l, cost, orders[..n]);
      OneMoreFilled(l, cost, orders, now);
    }
  }

  /**
   * When the cash covers all accepted buys with their costs, every one of them is filled: the ledger's cash moves by
   * exactly the money of the accepted buys times the buy factor, and by what the accepted sales bring in.  Without
   * slippage and commission the buys take exactly the sum the day's cap counts.
   */
  lemma {:induction false} CashTakenExactly(l: Ledger, cost: CostConfig, orders: seq<OrderResult>, now: Instant)
    requires AllHeld(l.positions) && SaneRates(cost) && AllPriced(orders) && OncePerSymbolOrdered(orders)
    requires forall i :: 0 <= i < |orders| ==> orders[i].status != Submitted
    requires Spent(orders) * cost.BuyFactor() <= l.cash
    ensures FillOrders(l, cost, orders, now).cash == l.cash - Spent(orders) * cost.BuyFactor() + Received(l, cost, orders)
    ensures cost.slippageRate == 0.0 && cost.commissionRate == 0.0 ==>
      FillOrders(l, cost, orders, now).cash == l.cash - Spent(orders) + Received(l, cost, orders)
  {
    hide FillOrders, Spent, Received, SaneRates, AllPriced, OncePerSymbolOrdered;
    ChargedExactly(l, cost, orders, now);
  }
}
