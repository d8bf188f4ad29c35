/** The paper ledger: simulated fills of intended orders, net of cost, and its marked value. */
module Paper {
  import opened Prelude
  import opened Orders
  import opened Sorting
  import opened Sums
  import opened RealArith

  datatype CostConfig = CostConfig(commissionRate: real, slippageRate: real, sellTaxRate: real) {
    /** Cost of entering and leaving a position once, as the entry gate counts it. */
    function RoundTripRate(): real {
      2.0 * commissionRate + 2.0 * slippageRate + sellTaxRate
    }

    /** Cash paid per unit bought at a price. */
    function BuyFactor(): real {
      (1.0 + slippageRate) * (1.0 + commissionRate)
    }

    /** Cash received per unit sold at a price. */
    function SellFactor(): real {
      (1.0 - slippageRate) * (1.0 - commissionRate - sellTaxRate)
    }
  }

  /** `avgCost` includes the cost of buying; `openedAt` is the first entry, kept by later additions. */
  datatype Position = Position(quantity: real, avgCost: real, openedAt: Option<Instant>)

  datatype Ledger = Ledger(cash: real, positions: map<Symbol, Position>, realizedCum: real, tradeCount: nat)

  datatype Fill = Fill(
    symbol: Symbol, side: Side, quantity: real, fillPrice: real, cashDelta: real, realized: Option<real>, skipped: bool)

  ghost predicate AllHeld(positions: map<Symbol, Position>) {
    forall s :: s in positions ==> positions[s].quantity > 0.0
  }

  /** Cash a buy costs: slippage against us, commission on top. */
  function BuyTotal(qty: real, price: real, cost: CostConfig): real {
    qty * (price * (1.0 + cost.slippageRate)) * (1.0 + cost.commissionRate)
  }

  /** Cash a sell brings: slippage against us, commission and tax off. */
  function SellProceeds(qty: real, price: real, cost: CostConfig): real {
    qty * (price * (1.0 - cost.slippageRate)) * (1.0 - cost.commissionRate - cost.sellTaxRate)
  }

  /** Adding a paid quantity to a position: the acquisition cost is the weighted average. */
  function Blend(pos: Position, qty: real, total: real): Position
    requires pos.quantity > 0.0 && qty > 0.0
  {
    Position(pos.quantity + qty, (pos.quantity * pos.avgCost + total) / (pos.quantity + qty), pos.openedAt)
  }

  function BuySpec(l: Ledger, symbol: Symbol, qty: real, price: real, cost: CostConfig, now: Option<Instant>): (r: (Ledger, Fill))
    requires AllHeld(l.positions) && qty > 0.0
    ensures AllHeld(r.0.positions)
  {
    var fillPrice := price * (1.0 + cost.slippageRate);
    var total := BuyTotal(qty, price, cost);
    if total > l.cash then (l, Fill(symbol, Buy, qty, fillPrice, 0.0, None, true))
    else
      var pos := if symbol !in l.positions then Position(qty, total / qty, now)
                 else Blend(l.positions[symbol], qty, total);
      (l.(cash := l.cash - total, positions := l.positions[symbol := pos]),
       Fill(symbol, Buy, qty, fillPrice, -total, None, false))
  }

  function SellSpec(l: Ledger, symbol: Symbol, wanted: real, price: real, cost: CostConfig): (r: (Ledger, Fill))
    requires AllHeld(l.positions)
    ensures AllHeld(r.0.positions)
  {
    if symbol !in l.positions || l.positions[symbol].quantity <= 0.0 then
      (l, Fill(symbol, Sell, wanted, price, 0.0, None, true))
    else
      var pos := l.positions[symbol];
      var qty := Min(wanted, pos.quantity);
      var fillPrice := price * (1.0 - cost.slippageRate);
      var proceeds := SellProceeds(qty, price, cost);
      var realized := proceeds - qty * pos.avgCost;
      var left := pos.quantity - qty;
      (Ledger(l.cash + proceeds,
              if left == 0.0 then l.positions - {symbol} else l.positions[symbol := pos.(quantity := left)],
              l.realizedCum + realized, l.tradeCount + 1),
       Fill(symbol, Sell, qty, fillPrice, proceeds, Some(realized), false))
  }

  /** An order without a price, or without a positive quantity, is not filled at all. */
  function FillSpec(l: Ledger, req: OrderRequest, cost: CostConfig, now: Option<Instant>): (r: (Ledger, Option<Fill>))
    requires AllHeld(l.positions)
    ensures AllHeld(r.0.positions)
  {
    if req.price.None? || req.quantity.None? || req.quantity.value <= 0.0 then (l, None)
    else
      var (after, fill) := if req.side.Buy? then BuySpec(l, req.symbol, req.quantity.value, req.price.value, cost, now)
                           else SellSpec(l, req.symbol, req.quantity.value, req.price.value, cost);
      (after, Some(fill))
  }

  /** A missing or zero price falls back to the acquisition cost. */
  function Mark(l: Ledger, marks: map<Symbol, real>, s: Symbol): real
    requires s in l.positions
  {
    if s in marks && marks[s] != 0.0 then marks[s] else l.positions[s].avgCost
  }

  function ValueOf(l: Ledger, marks: map<Symbol, real>, s: Symbol): real
    requires s in l.positions
  {
    l.positions[s].quantity * Mark(l, marks, s)
  }

  ghost function MarkedValues(l: Ledger, marks: map<Symbol, real>): map<Symbol, real> {
    map s | s in l.positions :: ValueOf(l, marks, s)
  }

  /** The market value of the positions, whatever order they are visited in. */
  ghost function MarkedValue(l: Ledger, marks: map<Symbol, real>): real {
    Sum(MarkedValues(l, marks))
  }

  function PurchaseOf(pos: Position): real {
    pos.quantity * pos.avgCost
  }

  ghost function BookValues(positions: map<Symbol, Position>): map<Symbol, real> {
    map s | s in positions :: PurchaseOf(positions[s])
  }

  ghost function BookValue(positions: map<Symbol, Position>): real {
    Sum(BookValues(positions))
  }

  /** One position as the pipeline sees it. */
  datatype Item = Item(symbol: Symbol, quantity: real, lastPrice: real, averagePurchasePrice: real, purchase: real, value: real, plRate: real)

  datatype Holdings = Holdings(totalPurchase: real, marketValue: real, items: seq<Item>, dailyPlRate: Option<real>)

  function ItemOf(l: Ledger, marks: map<Symbol, real>, s: Symbol): Item
    requires s in l.positions
  {
    var pos := l.positions[s];
    var purchase, value := PurchaseOf(pos), ValueOf(l, marks, s);
    Item(s, pos.quantity, Mark(l, marks, s), pos.avgCost, purchase, value,
         if purchase > 0.0 then (value - purchase) / purchase else 0.0)
  }

  class PaperPortfolio {
    var cash: real
    var positions: map<Symbol, Position>
    var realizedCum: real
    var tradeCount: nat

    function State(): Ledger
      reads this
    {
      Ledger(cash, positions, realizedCum, tradeCount)
    }

    constructor (cash: real)
      ensures State() == Ledger(cash, map[], 0.0, 0)
    {
      this.cash := cash;
      positions, realizedCum, tradeCount := map[], 0.0, 0;
    }

    method ApplyFill(req: OrderRequest, cost: CostConfig, now: Option<Instant>) returns (fill: Option<Fill>)
      requires AllHeld(positions)
      modifies this
      ensures (State(), fill) == FillSpec(old(State()), req, cost, now)
      ensures AllHeld(positions)
    {
      if req.price.None? || req.quantity.None? || req.quantity.value <= 0.0 {
        return None;
      }
      var f: Fill;
      if req.side.Buy? {
        f := FillBuy(req.symbol, req.quantity.value, req.price.value, cost, now);
      } else {
        f := FillSell(req.symbol, req.quantity.value, req.price.value, cost);
      }
      return Some(f);
    }

    method FillBuy(symbol: Symbol, qty: real, price: real, cost: CostConfig, now: Option<Instant>) returns (fill: Fill)
      requires AllHeld(positions) && qty > 0.0
      modifies this
      ensures State() == BuySpec(old(State()), symbol, qty, price, cost, now).0
      ensures fill == BuySpec(old(State()), symbol, qty, price, cost, now).1
      ensures AllHeld(positions)
    {
      var fillPrice := price * (1.0 + cost.slippageRate);
      var total := BuyTotal(qty, price, cost);
      if total > cash {
        return Fill(symbol, Buy, qty, fillPrice, 0.0, None, true);
      }
      cash := cash - total;
      if symbol !in positions {
        positions := positions[symbol := Position(qty, total / qty, now)];
      } else {
        positions := positions[symbol := Blend(positions[symbol], qty, total)];
      }
      fill := Fill(symbol, Buy, qty, fillPrice, -total, None, false);
    }

    method FillSell(symbol: Symbol, wanted: real, price: real, cost: CostConfig) returns (fill: Fill)
      requires AllHeld(positions) && wanted > 0.0
      modifies this
      ensures State() == SellSpec(old(State()), symbol, wanted, price, cost).0
      ensures fill == SellSpec(old(State()), symbol, wanted, price, cost).1
      ensures AllHeld(positions)
    {
      if symbol !in positions || positions[symbol].quantity <= 0.0 {
        return Fill(symbol, Sell, wanted, price, 0.0, None, true);
      }
      var pos := positions[symbol];
      var qty := Min(wanted, pos.quantity);
      var fillPrice := price * (1.0 - cost.slippageRate);
      var proceeds := SellProceeds(qty, price, cost);
      var realized := proceeds - qty * pos.avgCost;
      cash := cash + proceeds;
      realizedCum := realizedCum + realized;
      tradeCount := tradeCount + 1;
      pos := pos.(quantity := pos.quantity - qty);
      positions := if pos.quantity == 0.0 then positions - {symbol} else positions[symbol := pos];
      fill := Fill(symbol, Sell, qty, fillPrice, proceeds, Some(realized), false);
    }

    /** Total equity and position value; the positions are summed in whatever order the dictionary yields them. */
    method MarkEquity(marks: map<Symbol, real>) returns (equity: real, value: real)
      ensures value == MarkedValue(State(), marks)
      ensures equity == cash + MarkedValue(State(), marks)
    {
      value := 0.0;
      var todo := positions.Keys;
      ghost var all := MarkedValues(State(), marks);
      ghost var rest := all;
      while todo != {}
        invariant todo <= positions.Keys && rest.Keys == todo
        invariant forall s :: s in todo ==> rest[s] == all[s]
        invariant value + Sum(rest) == Sum(all)
        decreases |todo|
      {
        ghost var some := PickKey(todo);
        var s :| s in todo;
        SumRemove(rest, s);
        value := value + ValueOf(State(), marks, s);
        todo, rest := todo - {s}, rest - {s};
      }
      assert rest == map[];
      equity := cash + value;
    }

    /** The holdings the pipeline is shown: one item per position in symbol order, and accumulated totals. */
    method ToSyntheticHoldings(marks: map<Symbol, real>) returns (h: Holdings)
      ensures h == SyntheticHoldings(State(), marks)
    {
      var keys := Sorted(positions.Keys);
      var items, purchase, value := Accumulate(State(), marks, keys);
      SumAlongIsSum(MarkedValues(State(), marks), keys);
      SumAlongIsSum(BookValues(positions), keys);
      h := Holdings(purchase, value, items, None);
    }
  }

  /** The accumulating loop over the positions in key order. */
  method Accumulate(l: Ledger, marks: map<Symbol, real>, keys: seq<Symbol>) returns (items: seq<Item>, purchase: real, value: real)
    requires forall k :: 0 <= k < |keys| ==> keys[k] in l.positions
    ensures items == ItemsAlong(l, marks, keys)
    ensures value == SumAlong(MarkedValues(l, marks), keys)
    ensures purchase == SumAlong(BookValues(l.positions), keys)
  {
    items, purchase, value := [], 0.0, 0.0;
    for i := 0 to |keys|
      invariant items == ItemsAlong(l, marks, keys[..i])
      invariant value == SumAlong(MarkedValues(l, marks), keys[..i])
      invariant purchase == SumAlong(BookValues(l.positions), keys[..i])
    {
      ItemStep(l, marks, keys, i);
      var item := ItemOf(l, marks, keys[i]);
      purchase := purchase + item.purchase;
      value := value + item.value;
      items := items + [item];
    }
    assert keys[..|keys|] == keys;
  }

  /** The ledger as holdings: order-free totals, items in symbol order, no daily profit rate. */
  ghost function SyntheticHoldings(l: Ledger, marks: map<Symbol, real>): Holdings {
    Holdings(BookValue(l.positions), MarkedValue(l, marks), ItemsAlong(l, marks, Sorted(l.positions.Keys)), None)
  }

  lemma ItemStep(l: Ledger, marks: map<Symbol, real>, keys: seq<Symbol>, i: nat)
    requires i < |keys| && forall k :: 0 <= k < |keys| ==> keys[k] in l.positions
    ensures var item, marked, book := ItemOf(l, marks, keys[i]), MarkedValues(l, marks), BookValues(l.positions);
      ItemsAlong(l, marks, keys[..i + 1]) == ItemsAlong(l, marks, keys[..i]) + [item]
      && SumAlong(marked, keys[..i + 1]) == SumAlong(marked, keys[..i]) + item.value
      && SumAlong(book, keys[..i + 1]) == SumAlong(book, keys[..i]) + item.purchase
  {
    assert keys[..i + 1][..i] == keys[..i];
  }

  function ItemsAlong(l: Ledger, marks: map<Symbol, real>, keys: seq<Symbol>): (items: seq<Item>)
    requires forall i :: 0 <= i < |keys| ==> keys[i] in l.positions
    ensures |items| == |keys|
    ensures forall i :: 0 <= i < |keys| ==> items[i] == ItemOf(l, marks, keys[i])
  {
    if keys == [] then []
    else ItemsAlong(l, marks, keys[..|keys| - 1]) + [ItemOf(l, marks, keys[|keys| - 1])]
  }

  ghost function SumAlong(m: map<Symbol, real>, keys: seq<Symbol>): real {
    if keys == [] then 0.0
    else SumAlong(m, keys[..|keys| - 1]) + Lookup(m, keys[|keys| - 1])
  }

  /** Accumulating along the keys in order gives the order-free sum. */
  lemma {:induction false} SumAlongIsSum(m: map<Symbol, real>, keys: seq<Symbol>)
    requires StrictlySorted(keys) && forall s :: s in keys <==> s in m
    ensures SumAlong(m, keys) == Sum(m)
  {
    if keys == [] {
      if m != map[] {
        var s := PickKey(m.Keys);
        assert false;
      }
    } else {
      var n := |keys| - 1;
      var last, before := keys[n], keys[..n];
      forall s ensures s in before <==> s in m - {last} {
        if s in m && s != last {
          var i :| 0 <= i < |keys| && keys[i] == s;
          assert before[i] == s;
        }
      }
      assert last in m;
      SumAlongIsSum(m - {last}, before);
      SumAlongAgrees(m, m - {last}, before);
      SumRemove(m, last);
    }
  }

  lemma {:induction false} SumAlongAgrees(m: map<Symbol, real>, n: map<Symbol, real>, keys: seq<Symbol>)
    requires forall i :: 0 <= i < |keys| ==> Lookup(m, keys[i]) == Lookup(n, keys[i])
    ensures SumAlong(m, keys) == SumAlong(n, keys)
  {
    if keys != [] {
      SumAlongAgrees(m, n, keys[..|keys| - 1]);
    }
  }
}
